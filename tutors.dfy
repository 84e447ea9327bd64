/** The tutor search: an optional date narrows the tutors to those with an availability
    document on that date, and an optional subject narrows them to those teaching it. The
    two database queries return at most 100 documents each, in collection order. */
module TutorsRoute {
  import opened Common

  /** The fields of an availability document the search reads. */
  datatype AvailabilityDoc = AvailabilityDoc(tutorId: string, date: string)

  /** A user-meta document; `subjects` may be absent. */
  datatype UserDoc = UserDoc(id: string, role: string, subjects: Option<seq<string>>)

  /** `Query.limit(100)`. */
  const QueryLimit: nat := 100

  /** The first `n` elements, or all of them when there are fewer. */
  function Take<T>(s: seq<T>, n: nat): (r: seq<T>)
    ensures |r| <= n && |r| <= |s|
    ensures r == s[..|r|]
    ensures |s| <= n ==> r == s
  {
    if |s| <= n then s else s[..n]
  }

  /** `[...new Set(xs)]`: each element once, at its first occurrence. */
  function Dedup(xs: seq<string>): (r: seq<string>)
    ensures NoDuplicates(r)
    ensures forall i :: 0 <= i < |xs| ==> xs[i] in r
    ensures forall i :: 0 <= i < |r| ==> r[i] in xs
    ensures |r| <= |xs|
  {
    if xs == [] then []
    else
      var init := xs[..|xs| - 1];
      var last := xs[|xs| - 1];
      var d := Dedup(init);
      assert forall i :: 0 <= i < |init| ==> init[i] == xs[i];
      if last in d then d else d + [last]
  }

  /** A list without repeats passes through the de-duplication unchanged. */
  lemma {:induction false} DedupOfDistinct(xs: seq<string>)
    requires NoDuplicates(xs)
    ensures Dedup(xs) == xs
  {
    if xs != [] {
      var init := xs[..|xs| - 1];
      DedupOfDistinct(init);
      assert xs[|xs| - 1] !in init;
      assert init + [xs[|xs| - 1]] == xs;
    }
  }

  function OnDate(date: string): AvailabilityDoc -> bool {
    (doc: AvailabilityDoc) => doc.date == date
  }

  /** The availability query: the first 100 documents dated `date`. */
  function DatedDocs(date: string, availability: seq<AvailabilityDoc>): seq<AvailabilityDoc> {
    Take(Filter(availability, OnDate(date)), QueryLimit)
  }

  /** The distinct tutor ids of the first 100 availability documents dated `date`. */
  function AvailableTutorIds(date: string, availability: seq<AvailabilityDoc>): (ids: seq<string>)
    ensures NoDuplicates(ids)
    ensures forall i :: 0 <= i < |ids| ==>
      exists k :: 0 <= k < |availability| && availability[k].date == date && availability[k].tutorId == ids[i]
    ensures forall j :: 0 <= j < |DatedDocs(date, availability)| ==> DatedDocs(date, availability)[j].tutorId in ids
  {
    FilterMembers(availability, OnDate(date));
    var docs := DatedDocs(date, availability);
    assert forall j :: 0 <= j < |docs| ==> docs[j] in availability && OnDate(date)(docs[j]);
    var tutorIds := seq(|docs|, i requires 0 <= i < |docs| => docs[i].tutorId);
    assert forall j :: 0 <= j < |docs| ==> docs[j].tutorId == tutorIds[j];
    Dedup(tutorIds)
  }

  /** When at most 100 documents carry the date, every tutor with a document on that date
      is in the id list. */
  lemma AvailableTutorIdsComplete(date: string, availability: seq<AvailabilityDoc>, k: nat)
    requires k < |availability| && availability[k].date == date
    requires |Filter(availability, OnDate(date))| <= QueryLimit
    ensures availability[k].tutorId in AvailableTutorIds(date, availability)
  {
    FilterMembers(availability, OnDate(date));
    var docs := DatedDocs(date, availability);
    assert OnDate(date)(availability[k]);
    assert availability[k] in docs;
    var j :| 0 <= j < |docs| && docs[j] == availability[k];
  }

  /** The id list is empty exactly when no availability document carries the date: the
      case in which the route answers `[]` without querying tutors. */
  lemma NoTutorIdsIffNoDocuments(date: string, availability: seq<AvailabilityDoc>)
    ensures AvailableTutorIds(date, availability) == [] <==>
      forall k :: 0 <= k < |availability| ==> availability[k].date != date
  {
    FilterMembers(availability, OnDate(date));
    var docs := Take(Filter(availability, OnDate(date)), QueryLimit);
    var ids := AvailableTutorIds(date, availability);
    if ids == [] {
      forall k | 0 <= k < |availability|
        ensures availability[k].date != date
      {
        var doc := availability[k];
        assert doc.date == date ==> OnDate(date)(doc) && |docs| > 0;
      }
    } else {
      var k :| 0 <= k < |availability| && availability[k].date == date && availability[k].tutorId == ids[0];
    }
  }

  /** The tutor-id restriction: present exactly when a date was given. */
  function TutorIds(dateParam: Option<string>, availability: seq<AvailabilityDoc>): (ids: Option<seq<string>>)
    ensures ids.None? <==> !Present(dateParam)
    ensures ids.Some? ==> ids.value == AvailableTutorIds(dateParam.value, availability)
  {
    if Present(dateParam) then Some(AvailableTutorIds(dateParam.value, availability)) else None
  }

  /** The user-meta query: tutors, restricted to `ids` when there is a restriction. */
  function TutorQuery(ids: Option<seq<string>>): UserDoc -> bool {
    (doc: UserDoc) => doc.role == "tutor" && (ids.None? || doc.id in ids.value)
  }

  function Teaches(subject: string): UserDoc -> bool {
    (doc: UserDoc) => doc.subjects.Some? && subject in doc.subjects.value
  }

  /** Whether the in-memory subject filter applies. */
  predicate FiltersBySubject(subjectParam: Option<string>) {
    Present(subjectParam) && subjectParam.value != "All"
  }

  /** GET /api/tutors. */
  function Search(dateParam: Option<string>, subjectParam: Option<string>,
                  availability: seq<AvailabilityDoc>, users: seq<UserDoc>): (r: seq<UserDoc>)
    ensures |r| <= QueryLimit
    ensures forall i :: 0 <= i < |r| ==> r[i] in users && r[i].role == "tutor"
    ensures Present(dateParam) ==> forall i :: 0 <= i < |r| ==>
      r[i].id in AvailableTutorIds(dateParam.value, availability)
    ensures Present(dateParam) && AvailableTutorIds(dateParam.value, availability) == [] ==> r == []
    ensures FiltersBySubject(subjectParam) ==> forall i :: 0 <= i < |r| ==>
      r[i].subjects.Some? && subjectParam.value in r[i].subjects.value
    ensures !Present(dateParam) && !FiltersBySubject(subjectParam) ==>
      r == Take(Filter(users, TutorQuery(None)), QueryLimit)
    ensures (Present(dateParam) && AvailableTutorIds(dateParam.value, availability) != [] &&
             !FiltersBySubject(subjectParam)) ==>
      r == Take(Filter(users, TutorQuery(Some(AvailableTutorIds(dateParam.value, availability)))), QueryLimit)
  {
    var tutorIds := TutorIds(dateParam, availability);
    if tutorIds.Some? && |tutorIds.value| == 0 then []
    else
      FilterMembers(users, TutorQuery(tutorIds));
      var documents := Take(Filter(users, TutorQuery(tutorIds)), QueryLimit);
      var r :=
        if FiltersBySubject(subjectParam) then
          FilterMembers(documents, Teaches(subjectParam.value));
          Filter(documents, Teaches(subjectParam.value))
        else documents;
      assert forall i :: 0 <= i < |r| ==> r[i] in documents && TutorQuery(tutorIds)(r[i]);
      r
  }

  /** The subject filter only narrows: the result is the order-preserving selection, from
      the unfiltered result, of the tutors teaching the subject; "All" filters nothing. */
  lemma SubjectFilterNarrows(dateParam: Option<string>, subject: string,
                             availability: seq<AvailabilityDoc>, users: seq<UserDoc>)
    ensures subject != "" && subject != "All" ==>
      Search(dateParam, Some(subject), availability, users) ==
      Filter(Search(dateParam, None, availability, users), Teaches(subject))
    ensures Search(dateParam, Some("All"), availability, users) == Search(dateParam, None, availability, users)
  {
  }

  /** A dated search finds every tutor with a document on that date who teaches the
      requested subject, as long as neither query reaches its 100-document limit. */
  lemma DatedSearchComplete(date: string, subjectParam: Option<string>, availability: seq<AvailabilityDoc>,
                            users: seq<UserDoc>, j: nat, k: nat)
    requires date != ""
    requires j < |availability| && availability[j].date == date
    requires k < |users| && users[k].role == "tutor" && users[k].id == availability[j].tutorId
    requires FiltersBySubject(subjectParam) ==> Teaches(subjectParam.value)(users[k])
    requires |Filter(availability, OnDate(date))| <= QueryLimit
    requires |Filter(users, TutorQuery(Some(AvailableTutorIds(date, availability))))| <= QueryLimit
    ensures users[k] in Search(Some(date), subjectParam, availability, users)
  {
    var ids := AvailableTutorIds(date, availability);
    AvailableTutorIdsComplete(date, availability, j);
    assert TutorQuery(Some(ids))(users[k]);
    FilterMembers(users, TutorQuery(Some(ids)));
    var documents := Filter(users, TutorQuery(Some(ids)));
    assert users[k] in documents;
    if FiltersBySubject(subjectParam) {
      var i :| 0 <= i < |documents| && documents[i] == users[k];
      FilterMembers(documents, Teaches(subjectParam.value));
    }
  }
}
