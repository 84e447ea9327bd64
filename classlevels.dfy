/** The class-level picker: the two level catalogues it offers and the toggle that updates
    the selection, in single- and multi-select mode. */
module ClassLevelSelect {
  import opened Common

  datatype Level = Level(value: string, name: string, description: string)

  /** The grouped catalogue shown by default. */
  const ClassLevels: seq<Level> := [
    Level("1-5", "Class 1-5", "Primary"),
    Level("6-8", "Class 6-8", "Middle School"),
    Level("9-10", "Class 9-10", "High School"),
    Level("11-12", "Class 11-12", "Senior Secondary")
  ]

  /** The grouped catalogue offers four levels, each value once. */
  lemma ClassLevelsDistinct()
    ensures |ClassLevels| == 4
    ensures forall i, j :: 0 <= i < j < |ClassLevels| ==> ClassLevels[i].value != ClassLevels[j].value
  {
  }

  /** `${n}`: the decimal numeral of `n`. */
  function Decimal(n: nat): (s: string)
    ensures |s| >= 1 && forall i :: 0 <= i < |s| ==> IsDigit(s[i])
    ensures n < 10 ==> s == [DigitChar(n)]
    ensures 10 <= n < 100 ==> s == [DigitChar(n / 10), DigitChar(n % 10)]
  {
    if n < 10 then [DigitChar(n)] else Decimal(n / 10) + [DigitChar(n % 10)]
  }

  /** The school stage of the granular level at zero-based index `i`. */
  function Stage(i: nat): string {
    if i < 5 then "Primary" else if i < 8 then "Middle" else if i < 10 then "High" else "Senior"
  }

  /** `GRANULAR_LEVELS`: one level per class 1..12. */
  const GranularLevels: seq<Level> :=
    seq(12, i requires 0 <= i < 12 => Level(Decimal(i + 1), "Class " + Decimal(i + 1), Stage(i)))

  /** The granular catalogue's values are the numerals "1" to "12", in order. */
  lemma GranularValues()
    ensures seq(12, i requires 0 <= i < 12 => GranularLevels[i].value) ==
      ["1", "2", "3", "4", "5", "6", "7", "8", "9", "10", "11", "12"]
  {
    var values := seq(12, i requires 0 <= i < 12 => GranularLevels[i].value);
    var expected := ["1", "2", "3", "4", "5", "6", "7", "8", "9", "10", "11", "12"];
    forall i | 0 <= i < 12
      ensures values[i] == expected[i]
    {
      if i + 1 < 10 {
        assert values[i] == [DigitChar(i + 1)];
      } else {
        assert values[i] == [DigitChar(1), DigitChar(i + 1 - 10)];
      }
    }
  }

  /** No class appears twice in the granular catalogue. */
  lemma GranularDistinct()
    ensures forall i, j :: 0 <= i < j < 12 ==> GranularLevels[i].value != GranularLevels[j].value
  {
    forall i, j | 0 <= i < j < 12
      ensures GranularLevels[i].value != GranularLevels[j].value
    {
      var a, b := Decimal(i + 1), Decimal(j + 1);
      if |a| == |b| {
        if i + 1 < 10 {
          assert DigitValue(a[0]) != DigitValue(b[0]);
        } else {
          assert DigitValue(a[1]) != DigitValue(b[1]);
        }
      }
    }
  }

  /** The granular catalogue lists the classes "1" to "12" in order, each once, named
      "Class n", and staged Primary (1-5), Middle (6-8), High (9-10) and Senior (11-12). */
  lemma GranularLevelsShape()
    ensures |GranularLevels| == 12
    ensures forall i :: 0 <= i < 12 ==>
      GranularLevels[i].name == "Class " + GranularLevels[i].value &&
      GranularLevels[i].description == (if i < 5 then "Primary" else if i < 8 then "Middle" else if i < 10 then "High" else "Senior")
    ensures seq(12, i requires 0 <= i < 12 => GranularLevels[i].value) ==
      ["1", "2", "3", "4", "5", "6", "7", "8", "9", "10", "11", "12"]
    ensures forall i, j :: 0 <= i < j < 12 ==> GranularLevels[i].value != GranularLevels[j].value
  {
    GranularValues();
    GranularDistinct();
  }

  /** `toggleLevel`: in single-select mode the selection becomes empty or just `value`;
      in multi-select mode it is the plain toggle. */
  function ToggleLevel(selected: seq<string>, value: string, singleSelect: bool): (r: seq<string>)
    ensures value in r <==> value !in selected
    ensures singleSelect ==> |r| <= 1
    ensures singleSelect && value !in selected ==> r == [value]
    ensures singleSelect && value in selected ==> r == []
    ensures !singleSelect ==> r == Toggle(selected, value)
  {
    if singleSelect then
      if value in selected then [] else [value]
    else
      Toggle(selected, value)
  }

  /** Clicking the same unselected level twice gives the selection back; in single-select
      mode from an empty selection. */
  lemma ToggleLevelTwice(selected: seq<string>, value: string, singleSelect: bool)
    requires value !in selected
    requires singleSelect ==> selected == []
    ensures ToggleLevel(ToggleLevel(selected, value, singleSelect), value, singleSelect) == selected
  {
    if !singleSelect {
      ToggleTwice(selected, value);
    }
  }
}
