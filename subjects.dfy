/** The subject picker: the selection toggle and the grouping of the fetched subjects by
    category, subjects without a category going to "general". */
module SubjectSelect {
  import opened Common

  datatype Subject = Subject(id: string, name: string, slug: string, category: Option<string>, description: Option<string>)

  /** `subject.category || "general"`. */
  function CategoryOf(subject: Subject): (c: string)
    ensures c != ""
    ensures Present(subject.category) ==> c == subject.category.value
    ensures !Present(subject.category) ==> c == "general"
  {
    if Present(subject.category) then subject.category.value else "general"
  }

  function InCategory(category: string): Subject -> bool {
    subject => CategoryOf(subject) == category
  }

  /** `groups` holds, for each category met in `subjects` and only those, the subjects of
      that category in input order. */
  ghost predicate Grouped(subjects: seq<Subject>, groups: map<string, seq<Subject>>) {
    && (forall c :: c in groups <==> exists i :: 0 <= i < |subjects| && CategoryOf(subjects[i]) == c)
    && (forall c :: c in groups ==> groups[c] == Filter(subjects, InCategory(c)))
  }

  /** Appending `subject` to the group of its category, created empty when missing. */
  function AddToGroup(groups: map<string, seq<Subject>>, subject: Subject): map<string, seq<Subject>> {
    var category := CategoryOf(subject);
    var group := if category in groups then groups[category] else [];
    groups[category := group + [subject]]
  }

  /** The keys after a step are the categories of the longer prefix. */
  lemma GroupKeysSnoc(prefix: seq<Subject>, subject: Subject, extended: seq<Subject>, groups: map<string, seq<Subject>>)
    requires extended == prefix + [subject]
    requires forall c :: c in groups <==> exists i :: 0 <= i < |prefix| && CategoryOf(prefix[i]) == c
    ensures forall c :: c in AddToGroup(groups, subject) <==>
      exists i :: 0 <= i < |extended| && CategoryOf(extended[i]) == c
  {
    var next := AddToGroup(groups, subject);
    forall c | c in next
      ensures exists i :: 0 <= i < |extended| && CategoryOf(extended[i]) == c
    {
      if c == CategoryOf(subject) {
        assert CategoryOf(extended[|prefix|]) == c;
      } else {
        var i :| 0 <= i < |prefix| && CategoryOf(prefix[i]) == c;
        assert extended[i] == prefix[i];
      }
    }
    forall c | exists i :: 0 <= i < |extended| && CategoryOf(extended[i]) == c
      ensures c in next
    {
      var i :| 0 <= i < |extended| && CategoryOf(extended[i]) == c;
      if i < |prefix| {
        assert extended[i] == prefix[i];
      }
    }
  }

  /** The groups after a step are the filters of the longer prefix. */
  lemma GroupFiltersSnoc(prefix: seq<Subject>, subject: Subject, extended: seq<Subject>, groups: map<string, seq<Subject>>)
    requires extended == prefix + [subject]
    requires CategoryOf(subject) !in groups ==> Filter(prefix, InCategory(CategoryOf(subject))) == []
    requires forall c :: c in groups ==> groups[c] == Filter(prefix, InCategory(c))
    ensures forall c :: c in AddToGroup(groups, subject) ==>
      AddToGroup(groups, subject)[c] == Filter(extended, InCategory(c))
  {
    forall c | c in AddToGroup(groups, subject)
      ensures AddToGroup(groups, subject)[c] == Filter(extended, InCategory(c))
    {
      FilterSnoc(prefix, subject, InCategory(c));
    }
  }

  /** One step of the reduce keeps the grouping exact for the longer prefix. */
  lemma GroupedSnoc(subjects: seq<Subject>, n: nat, groups: map<string, seq<Subject>>)
    requires n < |subjects| && Grouped(subjects[..n], groups)
    ensures Grouped(subjects[..n + 1], AddToGroup(groups, subjects[n]))
  {
    var prefix, subject, extended := subjects[..n], subjects[n], subjects[..n + 1];
    assert extended == prefix + [subject];
    var category := CategoryOf(subject);
    if category !in groups {
      FilterNone(prefix, InCategory(category));
    }
    GroupKeysSnoc(prefix, subject, extended, groups);
    GroupFiltersSnoc(prefix, subject, extended, groups);
  }

  /** The `groupedSubjects` reduce: each category met maps to its subjects in input order
      (so, by `GroupsPartition`, every subject lands in exactly one group, the one of its
      own category). */
  method GroupByCategory(subjects: seq<Subject>) returns (groups: map<string, seq<Subject>>)
    ensures forall c :: c in groups <==> exists i :: 0 <= i < |subjects| && CategoryOf(subjects[i]) == c
    ensures forall c :: c in groups ==> groups[c] == Filter(subjects, InCategory(c))
  {
    groups := map[];
    for n := 0 to |subjects|
      invariant Grouped(subjects[..n], groups)
    {
      GroupedSnoc(subjects, n, groups);
      groups := AddToGroup(groups, subjects[n]);
    }
    assert subjects[..|subjects|] == subjects;
  }

  /** Grouping by filter partitions the subjects: each subject is in its own category's
      group, and a group holds only subjects of its category. */
  lemma GroupsPartition(subjects: seq<Subject>, groups: map<string, seq<Subject>>)
    requires Grouped(subjects, groups)
    ensures forall i :: 0 <= i < |subjects| ==>
      CategoryOf(subjects[i]) in groups && subjects[i] in groups[CategoryOf(subjects[i])]
    ensures forall c, k :: c in groups && 0 <= k < |groups[c]| ==> CategoryOf(groups[c][k]) == c
  {
    forall i | 0 <= i < |subjects|
      ensures CategoryOf(subjects[i]) in groups && subjects[i] in groups[CategoryOf(subjects[i])]
    {
      FilterMembers(subjects, InCategory(CategoryOf(subjects[i])));
      assert InCategory(CategoryOf(subjects[i]))(subjects[i]);
    }
    forall c, k | c in groups && 0 <= k < |groups[c]|
      ensures CategoryOf(groups[c][k]) == c
    {
      FilterMembers(subjects, InCategory(c));
      assert InCategory(c)(groups[c][k]);
    }
  }
}
