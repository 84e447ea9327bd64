/** Small value types and list operations shared by the route handlers and UI helpers. */
module Common {

  datatype Option<T> = None | Some(value: T)

  /** JavaScript truthiness of an optional string: `null`, `undefined` and `""` are falsy. */
  predicate Present(s: Option<string>) {
    s.Some? && s.value != ""
  }

  /** `s.startsWith(p)` */
  predicate StartsWith(s: string, p: string) {
    |p| <= |s| && s[..|p|] == p
  }

  predicate NoDuplicates<T(==)>(s: seq<T>) {
    forall i, j :: 0 <= i < j < |s| ==> s[i] != s[j]
  }

  /** `s.filter(p)`: the order-preserving subsequence of the elements that satisfy `p`. */
  function Filter<T>(s: seq<T>, p: T -> bool): (r: seq<T>)
    ensures |r| <= |s|
  {
    if s == [] then [] else (if p(s[0]) then [s[0]] else []) + Filter(s[1..], p)
  }

  /** What `Filter` keeps: elements of `s` that satisfy `p`, and every such element. */
  lemma {:induction false} FilterMembers<T>(s: seq<T>, p: T -> bool)
    ensures forall i :: 0 <= i < |Filter(s, p)| ==> Filter(s, p)[i] in s && p(Filter(s, p)[i])
    ensures forall i :: 0 <= i < |s| && p(s[i]) ==> s[i] in Filter(s, p)
  {
    if s != [] {
      FilterMembers(s[1..], p);
      var r := Filter(s, p);
      var head := if p(s[0]) then [s[0]] else [];
      assert r == head + Filter(s[1..], p);
      forall i | 0 <= i < |r| ensures r[i] in s && p(r[i]) {
        if i >= |head| {
          assert r[i] == Filter(s[1..], p)[i - |head|];
        }
      }
      forall i | 0 <= i < |s| && p(s[i]) ensures s[i] in r {
        if i > 0 {
          assert s[i] == s[1..][i - 1];
        }
      }
    }
  }

  /** One step of `Filter`: the head is kept exactly when it satisfies `p`. */
  lemma FilterStep<T>(s: seq<T>, p: T -> bool)
    requires s != []
    ensures Filter(s, p) == (if p(s[0]) then [s[0]] else []) + Filter(s[1..], p)
  {
  }

  /** `FilterStep` on a suffix: the element at `k` is kept exactly when it satisfies `p`. */
  lemma FilterDrop<T>(s: seq<T>, k: nat, p: T -> bool)
    requires k < |s|
    ensures Filter(s[k..], p) == (if p(s[k]) then [s[k]] else []) + Filter(s[k + 1..], p)
  {
    assert s[k..][1..] == s[k + 1..];
  }

  /** Filtering distributes over concatenation; with singletons this pins `Filter` down
      as the order-preserving selection. */
  lemma {:induction false} FilterAppend<T>(s: seq<T>, t: seq<T>, p: T -> bool)
    ensures Filter(s + t, p) == Filter(s, p) + Filter(t, p)
  {
    if s == [] {
      assert s + t == t;
    } else {
      assert (s + t)[0] == s[0];
      assert (s + t)[1..] == s[1..] + t;
      FilterAppend(s[1..], t, p);
      assert Filter(s + t, p) == (if p(s[0]) then [s[0]] else []) + Filter(s[1..] + t, p);
    }
  }

  /** Filtering a sequence extended by one element: the element is kept exactly when it
      satisfies `p`. */
  lemma FilterSnoc<T>(init: seq<T>, last: T, p: T -> bool)
    ensures Filter(init + [last], p) == Filter(init, p) + (if p(last) then [last] else [])
  {
    FilterAppend(init, [last], p);
    FilterStep([last], p);
    assert [last][1..] == [];
  }

  /** A filter that keeps nothing yields nothing. */
  lemma {:induction false} FilterNone<T>(s: seq<T>, p: T -> bool)
    requires forall i :: 0 <= i < |s| ==> !p(s[i])
    ensures Filter(s, p) == []
  {
    if s != [] {
      FilterNone(s[1..], p);
    }
  }

  /** `s.filter(x => x !== v)`: every occurrence of `v` removed, the rest kept in order. */
  function Remove<T(==)>(s: seq<T>, v: T): (r: seq<T>)
    ensures v !in r
    ensures forall i :: 0 <= i < |r| ==> r[i] in s
    ensures forall i :: 0 <= i < |s| && s[i] != v ==> s[i] in r
    ensures v !in s ==> r == s
    ensures |r| <= |s|
  {
    if s == [] then []
    else if s[0] == v then Remove(s[1..], v)
    else [s[0]] + Remove(s[1..], v)
  }

  /** Removing an element that was just appended to a list that did not hold it gives the list back. */
  lemma {:induction false} RemoveAppended<T>(s: seq<T>, v: T)
    requires v !in s
    ensures Remove(s + [v], v) == s
  {
    if s == [] {
      assert s + [v] == [v];
    } else {
      assert (s + [v])[1..] == s[1..] + [v];
      RemoveAppended(s[1..], v);
    }
  }

  /** Removal distributes over concatenation, so the survivors keep their order. */
  lemma {:induction false} RemoveAppend<T>(s: seq<T>, t: seq<T>, v: T)
    ensures Remove(s + t, v) == Remove(s, v) + Remove(t, v)
  {
    if s == [] {
      assert s + t == t;
    } else {
      assert (s + t)[1..] == s[1..] + t;
      RemoveAppend(s[1..], t, v);
    }
  }

  /** Removal keeps a duplicate-free list duplicate-free. */
  lemma {:induction false} RemoveNoDuplicates<T>(s: seq<T>, v: T)
    requires NoDuplicates(s)
    ensures NoDuplicates(Remove(s, v))
  {
    if s != [] {
      RemoveNoDuplicates(s[1..], v);
      if s[0] != v {
        var r := Remove(s[1..], v);
        assert s[0] !in r by {
          assert s[0] !in s[1..];
        }
      }
    }
  }

  /** The multi-select toggle: a selected value is removed (every occurrence), an
      unselected one is appended at the end. */
  function Toggle<T(==)>(s: seq<T>, v: T): (r: seq<T>)
    ensures v in r <==> v !in s
    ensures v in s ==> r == Remove(s, v)
    ensures forall i :: 0 <= i < |s| && s[i] != v ==> s[i] in r
    ensures forall i :: 0 <= i < |r| && r[i] != v ==> r[i] in s
    ensures v !in s ==> |r| == |s| + 1 && r[..|s|] == s && r[|s|] == v
  {
    if v in s then
      Remove(s, v)
    else
      assert (s + [v])[..|s|] == s;
      s + [v]
  }

  /** Toggling an unselected value twice gives the selection back. */
  lemma ToggleTwice<T>(s: seq<T>, v: T)
    requires v !in s
    ensures Toggle(Toggle(s, v), v) == s
  {
    RemoveAppended(s, v);
  }

  /** Toggling keeps a duplicate-free selection duplicate-free. */
  lemma ToggleNoDuplicates<T>(s: seq<T>, v: T)
    requires NoDuplicates(s)
    ensures NoDuplicates(Toggle(s, v))
  {
    if v in s {
      RemoveNoDuplicates(s, v);
    }
  }

  /** `s.indexOf(c)`: the first position of `c`, or -1. */
  function IndexOf(s: string, c: char): (i: int)
    ensures -1 <= i < |s|
    ensures i == -1 <==> c !in s
    ensures 0 <= i ==> s[i] == c && c !in s[..i]
  {
    if s == [] then -1
    else if s[0] == c then 0
    else
      var j := IndexOf(s[1..], c);
      if j == -1 then -1 else (assert s[1..][..j] == s[1..j + 1]; j + 1)
  }

  predicate IsDigit(c: char) {
    '0' <= c <= '9'
  }

  function DigitValue(c: char): (n: nat)
    requires IsDigit(c)
    ensures n < 10
  {
    (c - '0') as nat
  }

  function DigitChar(n: nat): (c: char)
    requires n < 10
    ensures IsDigit(c) && DigitValue(c) == n
  {
    ('0' as int + n) as char
  }
}
