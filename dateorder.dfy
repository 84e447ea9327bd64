/** Dates in ascending order, as a listing query sorted by date and limited in length
    returns them. Dates are day numbers. */
module DateOrder {

  /** The least element of a non-empty set of dates. */
  ghost function MinOf(dates: set<nat>): (m: nat)
    requires dates != {}
    ensures m in dates && forall d :: d in dates ==> m <= d
    decreases |dates|
  {
    var x :| x in dates;
    var rest := dates - {x};
    if rest == {} then
      assert forall d :: d in dates ==> d == x by {
        forall d | d in dates ensures d == x {
          assert d !in rest;
        }
      }
      x
    else
      var m := MinOf(rest);
      assert forall d :: d in dates ==> d == x || d in rest;
      if x < m then x else m
  }

  /** The earliest of a non-empty set of dates. */
  function Earliest(dates: set<nat>): (m: nat)
    requires dates != {}
    ensures m in dates && forall d :: d in dates ==> m <= d
  {
    assert MinOf(dates) in dates;
    var m :| m in dates && forall d :: d in dates ==> m <= d;
    m
  }

  /** A set of dates in ascending order (`orderAsc("date")`). */
  function Ascending(dates: set<nat>): (r: seq<nat>)
    ensures |r| == |dates|
    ensures forall i :: 0 <= i < |r| ==> r[i] in dates
    ensures forall d :: d in dates ==> d in r
    ensures forall i, j :: 0 <= i < j < |r| ==> r[i] < r[j]
    decreases |dates|
  {
    if dates == {} then []
    else
      var m := Earliest(dates);
      var later := dates - {m};
      var rest := Ascending(later);
      PrependEarliest(dates, m, rest);
      [m] + rest
  }

  /** Putting the earliest date in front of the ascending rest lists all dates ascending. */
  lemma PrependEarliest(dates: set<nat>, m: nat, rest: seq<nat>)
    requires m in dates && forall d :: d in dates ==> m <= d
    requires |rest| == |dates - {m}|
    requires forall i :: 0 <= i < |rest| ==> rest[i] in dates - {m}
    requires forall d :: d in dates - {m} ==> d in rest
    requires forall i, j :: 0 <= i < j < |rest| ==> rest[i] < rest[j]
    ensures |[m] + rest| == |dates|
    ensures forall i :: 0 <= i < |[m] + rest| ==> ([m] + rest)[i] in dates
    ensures forall d :: d in dates ==> d in [m] + rest
    ensures forall i, j :: 0 <= i < j < |[m] + rest| ==> ([m] + rest)[i] < ([m] + rest)[j]
  {
    var later := dates - {m};
    var r := [m] + rest;
    assert forall d :: d in later ==> m < d;
    forall i | 0 < i < |r|
      ensures r[i] == rest[i - 1]
    {
    }
    forall d | d in dates
      ensures d in r
    {
      if d != m {
        assert d in later;
      }
    }
  }

  /** `orderAsc("date")` then `limit(7)`: the dates listed are ascending, and any date
      left out comes after all listed ones and only when 7 are listed already. */
  function FirstSeven(dates: set<nat>): (r: seq<nat>)
    ensures |r| <= 7
    ensures forall i :: 0 <= i < |r| ==> r[i] in dates
    ensures forall i, j :: 0 <= i < j < |r| ==> r[i] < r[j]
    ensures forall d :: d in dates && d !in r ==> |r| == 7 && forall i :: 0 <= i < |r| ==> r[i] < d
  {
    var sorted := Ascending(dates);
    var r := if |sorted| <= 7 then sorted else sorted[..7];
    LimitedPrefix(dates, sorted, r);
    r
  }

  /** The first (at most) seven of the ascending dates: what is cut off comes later. */
  lemma LimitedPrefix(dates: set<nat>, sorted: seq<nat>, r: seq<nat>)
    requires forall i :: 0 <= i < |sorted| ==> sorted[i] in dates
    requires forall d :: d in dates ==> d in sorted
    requires forall i, j :: 0 <= i < j < |sorted| ==> sorted[i] < sorted[j]
    requires r == if |sorted| <= 7 then sorted else sorted[..7]
    ensures |r| <= 7
    ensures forall i :: 0 <= i < |r| ==> r[i] in dates
    ensures forall i, j :: 0 <= i < j < |r| ==> r[i] < r[j]
    ensures forall d :: d in dates && d !in r ==> |r| == 7 && forall i :: 0 <= i < |r| ==> r[i] < d
  {
    assert forall i :: 0 <= i < |r| ==> r[i] == sorted[i];
    forall d | d in dates && d !in r
      ensures |r| == 7 && forall i :: 0 <= i < |r| ==> r[i] < d
    {
      var k :| 0 <= k < |sorted| && sorted[k] == d;
      assert 7 <= k;
    }
  }
}
