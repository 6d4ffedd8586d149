/**
 * The two string helpers of the chat view: the initials shown in place of
 * a missing avatar, and the relay list read from the `relays` query
 * parameter.
 */
module Chat {
  import opened Wrappers
  import opened Text

  /** A character of the class `[\s_-]` that separates the words of a name. */
  predicate IsNameSeparator(c: char) {
    IsWhitespace(c) || c == '_' || c == '-'
  }

  predicate HasSeparator(s: string) {
    exists k :: 0 <= k < |s| && IsNameSeparator(s[k])
  }

  /** Where the word starting at `from` ends: the next separator, or the end of `s`. */
  function WordEnd(s: string, from: nat): (e: nat)
    requires from <= |s|
    ensures from <= e <= |s| && (e == |s| || IsNameSeparator(s[e]))
    ensures forall k :: from <= k < e ==> !IsNameSeparator(s[k])
    decreases |s| - from
  {
    if from < |s| && !IsNameSeparator(s[from]) then WordEnd(s, from + 1) else from
  }

  /** Where the run of separators starting at `from` ends. */
  function SeparatorsEnd(s: string, from: nat): (e: nat)
    requires from <= |s|
    ensures from <= e <= |s| && (e == |s| || !IsNameSeparator(s[e]))
    ensures forall k :: from <= k < e ==> IsNameSeparator(s[k])
    decreases |s| - from
  {
    if from < |s| && IsNameSeparator(s[from]) then SeparatorsEnd(s, from + 1) else from
  }

  /** `s.split(/[\s_-]+/)` of the text from `from` on: the words between runs of separators. */
  function SplitNameFrom(s: string, from: nat): (parts: seq<string>)
    requires from <= |s|
    ensures |parts| >= 1 && parts[0] == s[from..WordEnd(s, from)]
    ensures WordEnd(s, from) == |s| ==> |parts| == 1
    ensures WordEnd(s, from) < |s| ==>
              var j := SeparatorsEnd(s, WordEnd(s, from));
              |parts| >= 2 && parts[1] == s[j..WordEnd(s, j)]
    ensures forall k :: 0 <= k < |parts| ==> !HasSeparator(parts[k])
    decreases |s| - from
  {
    var e := WordEnd(s, from);
    if e == |s| then
      assert forall k :: 0 <= k < |s| - from ==> s[from..][k] == s[from + k];
      [s[from..]]
    else
      var rest := SplitNameFrom(s, SeparatorsEnd(s, e));
      assert forall k :: 0 <= k < e - from ==> s[from..e][k] == s[from + k];
      [s[from..e]] + rest
  }

  function SplitName(s: string): seq<string> {
    SplitNameFrom(s, 0)
  }

  /** A name splits into two or more words exactly when it contains a separator. */
  lemma SplitNameHasSeveralParts(s: string)
    ensures |SplitName(s)| >= 2 <==> HasSeparator(s)
  {
    var e := WordEnd(s, 0);
    if e < |s| {
      assert IsNameSeparator(s[e]);
    }
  }

  /**
   * JavaScript reads `parts[i][0]` of an empty word as `undefined`; names
   * whose first or second word is empty (a leading separator, or one run of
   * separators at the very end) are outside this model.
   */
  predicate InitialsDefined(name: string) {
    var parts := SplitName(name);
    |parts| >= 2 ==> parts[0] != "" && parts[1] != ""
  }

  /**
   * `i` is where the first run of separators of `n` begins, and `j` where
   * the second word begins after it.
   */
  predicate SecondWordAt(n: string, i: nat, j: nat) {
    && 0 < i < j < |n|
    && (forall k :: 0 <= k < i ==> !IsNameSeparator(n[k]))
    && (forall k :: i <= k < j ==> IsNameSeparator(n[k]))
    && !IsNameSeparator(n[j])
  }

  /**
   * `getInitials`: `?` for an absent or empty name; the upper-cased first
   * letters of the first two words when the name has several; otherwise
   * its first two characters upper-cased.
   */
  function GetInitials(name: Option<string>): (r: string)
    requires name.Some? ==> InitialsDefined(name.value)
    ensures name.None? || name.value == "" ==> r == "?"
    ensures name.Some? && name.value != "" && HasSeparator(name.value) ==>
              exists i: nat, j: nat :: SecondWordAt(name.value, i, j) && r == [UpperChar(name.value[0]), UpperChar(name.value[j])]
    ensures name.Some? && name.value != "" && !HasSeparator(name.value) ==>
              1 <= |r| <= 2 && r == Upper(name.value[..if |name.value| < 2 then |name.value| else 2])
  {
    if name.None? || name.value == "" then "?"
    else
      var n := name.value;
      var parts := SplitName(n);
      SplitNameHasSeveralParts(n);
      if |parts| >= 2 then
        var i := WordEnd(n, 0);
        var j := SeparatorsEnd(n, i);
        assert parts[0] == n[..i];
        assert parts[1] == n[j..WordEnd(n, j)];
        assert SecondWordAt(n, i, j);
        Upper([parts[0][0], parts[1][0]])
      else Upper(n[..if |n| < 2 then |n| else 2])
  }

  /**
   * The relays of the `relays` query parameter: none when it is absent or
   * empty, otherwise one per comma-separated piece (commas plus one), each
   * trimmed of surrounding white space.
   */
  function RelaysFromQuery(param: Option<string>): (relays: seq<string>)
    ensures param.None? || param.value == "" ==> relays == []
    ensures param.Some? && param.value != "" ==>
              && |relays| == Count(param.value, ',') + 1
              && forall k :: 0 <= k < |relays| ==> relays[k] == Trim(SplitOn(param.value, ',')[k])
  {
    if param.None? || param.value == "" then []
    else
      var pieces := SplitOn(param.value, ',');
      seq(|pieces|, k requires 0 <= k < |pieces| => Trim(pieces[k]))
  }

  /**
   * The pieces join back into the parameter, and no relay read from it
   * contains a comma or starts or ends with white space.
   */
  lemma RelaysFromQueryAreClean(param: string)
    requires param != ""
    ensures var relays := RelaysFromQuery(Some(param));
            var pieces := SplitOn(param, ',');
            && Join(pieces, ',') == param
            && forall k :: 0 <= k < |relays| ==>
                 && ',' !in relays[k]
                 && (relays[k] == [] || (!IsWhitespace(relays[k][0]) && !IsWhitespace(relays[k][|relays[k]| - 1])))
  {
    var relays := RelaysFromQuery(Some(param));
    var pieces := SplitOn(param, ',');
    JoinSplitOn(param, ',');
    forall k | 0 <= k < |relays|
      ensures ',' !in relays[k]
      ensures relays[k] == [] || (!IsWhitespace(relays[k][0]) && !IsWhitespace(relays[k][|relays[k]| - 1]))
    {
      assert relays[k] == Trim(pieces[k]);
      TrimKeepsOut(pieces[k], ',');
    }
  }
}
