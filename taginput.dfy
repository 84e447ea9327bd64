/** The free-text tag editor: Enter or comma commits the trimmed input as a new tag, Backspace
    on an empty input drops the last tag, and a tag's close button removes it. The tag list
    belongs to the parent, so every edit is returned as the list handed to `onTagsChange`. */
module TagInput {
  import opened Common

  /** The characters `String.prototype.trim` strips: white space and line terminators. */
  predicate IsSpace(c: char) {
    var code := c as int;
    code in {0x09, 0x0A, 0x0B, 0x0C, 0x0D, 0x20, 0xA0, 0x1680, 0x2028, 0x2029, 0x202F, 0x205F, 0x3000, 0xFEFF} ||
    0x2000 <= code <= 0x200A
  }

  /** The length of the leading run of white space. */
  function LeadingSpaces(s: string): (n: nat)
    ensures n <= |s|
    ensures forall k :: 0 <= k < n ==> IsSpace(s[k])
    ensures n < |s| ==> !IsSpace(s[n])
  {
    if s == [] || !IsSpace(s[0]) then 0
    else
      var n := LeadingSpaces(s[1..]);
      assert forall k :: 1 <= k <= n ==> s[k] == s[1..][k - 1];
      n + 1
  }

  /** The length of the trailing run of white space. */
  function TrailingSpaces(s: string): (n: nat)
    ensures n <= |s|
    ensures forall k :: |s| - n <= k < |s| ==> IsSpace(s[k])
    ensures n < |s| ==> !IsSpace(s[|s| - n - 1])
  {
    if s == [] || !IsSpace(s[|s| - 1]) then 0
    else TrailingSpaces(s[..|s| - 1]) + 1
  }

  /** `s.trim()`: the middle of `s` between a leading and a trailing run of white space;
      it is empty exactly when `s` is all white space. */
  function Trim(s: string): (r: string)
    ensures exists i, j ::
              0 <= i <= j <= |s| && r == s[i..j] &&
              (forall k :: 0 <= k < i ==> IsSpace(s[k])) && (forall k :: j <= k < |s| ==> IsSpace(s[k]))
    ensures r != [] ==> !IsSpace(r[0]) && !IsSpace(r[|r| - 1])
    ensures r == [] <==> forall k :: 0 <= k < |s| ==> IsSpace(s[k])
  {
    var i := LeadingSpaces(s);
    var j := |s| - TrailingSpaces(s[i..]);
    TrimBounds(s, i, j);
    s[i..j]
  }

  /** The cut points of `Trim`: white space outside them, none just inside them. */
  lemma TrimBounds(s: string, i: nat, j: int)
    requires i == LeadingSpaces(s) && j == |s| - TrailingSpaces(s[i..])
    ensures i <= j <= |s|
    ensures forall k :: 0 <= k < i ==> IsSpace(s[k])
    ensures forall k :: j <= k < |s| ==> IsSpace(s[k])
    ensures i < j ==> !IsSpace(s[i]) && !IsSpace(s[j - 1])
    ensures i == j <==> forall k :: 0 <= k < |s| ==> IsSpace(s[k])
    ensures |s[i..j]| == j - i && (i < j ==> s[i..j][0] == s[i] && s[i..j][j - i - 1] == s[j - 1])
  {
    TrailingRun(s, i);
    MeetIffAllSpace(s, i, j);
  }

  /** Cut points with white space outside them meet exactly when all of `s` is white space,
      given that the first one stops at a character that is not. */
  lemma MeetIffAllSpace(s: string, i: nat, j: int)
    requires i <= j <= |s|
    requires forall k :: 0 <= k < i ==> IsSpace(s[k])
    requires forall k :: j <= k < |s| ==> IsSpace(s[k])
    requires i < |s| ==> !IsSpace(s[i])
    ensures i == j <==> forall k :: 0 <= k < |s| ==> IsSpace(s[k])
  {
  }

  /** The trailing run of `s[i..]` read as positions of `s`. */
  lemma TrailingRun(s: string, i: nat)
    requires i <= |s|
    ensures var j := |s| - TrailingSpaces(s[i..]);
      i <= j <= |s| &&
      (forall k :: j <= k < |s| ==> IsSpace(s[k])) &&
      (i < j ==> !IsSpace(s[j - 1]))
  {
    var rest := s[i..];
    var n := TrailingSpaces(rest);
    var j := |s| - n;
    forall k | j <= k < |s|
      ensures IsSpace(s[k])
    {
      assert s[k] == rest[k - i];
    }
    if i < j {
      assert s[j - 1] == rest[|rest| - n - 1];
    }
  }

  /** The `inputValue` state of the editor. */
  class Editor {
    var inputValue: string

    constructor ()
      ensures inputValue == ""
    {
      inputValue := "";
    }

    /** The input's `onChange`. */
    method SetInput(value: string)
      modifies this
      ensures inputValue == value
    {
      inputValue := value;
    }

    /** `handleKeyDown` on the current `tags`: `changed` is the list passed to
        `onTagsChange`, `None` when it is not called. */
    method HandleKeyDown(key: string, tags: seq<string>) returns (changed: Option<seq<string>>)
      modifies this
      ensures key == "Enter" || key == "," ==>
        var newTag := Trim(old(inputValue));
        if newTag != "" && newTag !in tags
        then changed == Some(tags + [newTag]) && inputValue == ""
        else changed == None && inputValue == old(inputValue)
      ensures key == "Backspace" ==>
        inputValue == old(inputValue) &&
        changed == (if old(inputValue) == "" && |tags| > 0 then Some(tags[..|tags| - 1]) else None)
      ensures key != "Enter" && key != "," && key != "Backspace" ==>
        changed == None && inputValue == old(inputValue)
      ensures NoDuplicates(tags) && changed.Some? ==> NoDuplicates(changed.value)
    {
      changed := None;
      if key == "Enter" || key == "," {
        var newTag := Trim(inputValue);
        if newTag != "" && newTag !in tags {
          changed := Some(tags + [newTag]);
          inputValue := "";
        }
      } else if key == "Backspace" && inputValue == "" && |tags| > 0 {
        changed := Some(tags[..|tags| - 1]);
      }
    }

    /** `removeTag`: the tag's close button. */
    method RemoveTag(tags: seq<string>, tag: string) returns (changed: seq<string>)
      ensures changed == Remove(tags, tag)
      ensures NoDuplicates(tags) ==> NoDuplicates(changed)
    {
      if NoDuplicates(tags) {
        RemoveNoDuplicates(tags, tag);
      }
      changed := Remove(tags, tag);
    }
  }

  /** Committing a tag and then pressing Backspace on the now empty input takes it back off. */
  method CommitThenBackspace(editor: Editor, key: string, tags: seq<string>) returns (first: Option<seq<string>>, second: Option<seq<string>>)
    requires key == "Enter" || key == ","
    modifies editor
    ensures first.Some? ==> second == Some(tags)
  {
    first := editor.HandleKeyDown(key, tags);
    if first.Some? {
      second := editor.HandleKeyDown("Backspace", first.value);
      assert (tags + [Trim(old(editor.inputValue))])[..|tags|] == tags;
    } else {
      second := None;
    }
  }
}
