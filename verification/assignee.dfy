/** `getObjectName`: the identifier captured by the first match of `\b(\w+)\s*=` in the
    caret line, that is, the left-hand side of the first assignment-looking text. */
module Assignee {
  import opened Wrappers
  import opened Chars

  /** `\b` between positions `i - 1` and `i` of `s`. */
  predicate AtBoundary(s: string, i: nat)
    requires i <= |s|
  {
    (i > 0 && IsWordChar(s[i - 1])) != (i < |s| && IsWordChar(s[i]))
  }

  /** The pattern `\b(\w+)\s*=` matches `s[i..m + 1]` with group 1 equal to `s[i..k]`. */
  ghost predicate PatternAt(s: string, i: nat, k: nat, m: nat) {
    && i < k <= m < |s|
    && AtBoundary(s, i)
    && (forall p :: i <= p < k ==> IsWordChar(s[p]))
    && (forall p :: k <= p < m ==> IsRegexSpace(s[p]))
    && s[m] == '='
  }

  /** Some match of the pattern starts at `i`. */
  ghost predicate MatchesAt(s: string, i: nat) {
    exists k: nat, m: nat :: PatternAt(s, i, k, m)
  }

  /** `i` is where `Regex.find` reports its match: the least start position. */
  ghost predicate LeftmostMatch(s: string, i: nat) {
    MatchesAt(s, i) && forall j :: 0 <= j < i ==> !MatchesAt(s, j)
  }

  /** The match starting at `i` can capture `w` as group 1. */
  ghost predicate Captures(s: string, i: nat, w: string) {
    exists k: nat, m: nat :: PatternAt(s, i, k, m) && w == s[i..k]
  }

  /** The end of the maximal run of word characters starting at `i`. */
  function WordEnd(s: string, i: nat): (k: nat)
    requires i <= |s|
    ensures i <= k <= |s|
    ensures forall p :: i <= p < k ==> IsWordChar(s[p])
    ensures k == |s| || !IsWordChar(s[k])
    decreases |s| - i
  {
    if i < |s| && IsWordChar(s[i]) then WordEnd(s, i + 1) else i
  }

  /** The end of the maximal run of `\s` characters starting at `k`. */
  function SpaceEnd(s: string, k: nat): (m: nat)
    requires k <= |s|
    ensures k <= m <= |s|
    ensures forall p :: k <= p < m ==> IsRegexSpace(s[p])
    ensures m == |s| || !IsRegexSpace(s[m])
    decreases |s| - k
  {
    if k < |s| && IsRegexSpace(s[k]) then SpaceEnd(s, k + 1) else k
  }

  /** Executable test for a match at `i`: a word run starts there and its maximal
      extent is followed by optional spaces and `=`. */
  predicate AssignsAt(s: string, i: nat)
    requires i < |s|
  {
    && IsWordChar(s[i])
    && AtBoundary(s, i)
    && var m := SpaceEnd(s, WordEnd(s, i)); m < |s| && s[m] == '='
  }

  /** Greedy `\w+` and `\s*` leave no choice: any match at `i` captures the whole word
      run starting there and ends at the first non-space after it. */
  lemma PatternIsMaximal(s: string, i: nat, k: nat, m: nat)
    requires PatternAt(s, i, k, m)
    ensures k == WordEnd(s, i) && m == SpaceEnd(s, k)
  {
  }

  /** The executable test at `i` holds exactly when the pattern matches at `i`. */
  lemma AssignsAtIffMatches(s: string, i: nat)
    requires i < |s|
    ensures AssignsAt(s, i) <==> MatchesAt(s, i)
  {
    if AssignsAt(s, i) {
      var k := WordEnd(s, i);
      assert PatternAt(s, i, k, SpaceEnd(s, k));
    }
    if MatchesAt(s, i) {
      var k, m :| PatternAt(s, i, k, m);
      PatternIsMaximal(s, i, k, m);
    }
  }

  /** The first match start at or after `i`. */
  function FindFrom(s: string, i: nat): (r: Option<nat>)
    requires i <= |s|
    ensures r.Some? ==> i <= r.value < |s| && MatchesAt(s, r.value)
    ensures r.Some? ==> forall j :: i <= j < r.value ==> !MatchesAt(s, j)
    ensures r.None? ==> forall j :: i <= j < |s| ==> !MatchesAt(s, j)
    decreases |s| - i
  {
    if i == |s| then None
    else
      AssignsAtIffMatches(s, i);
      if AssignsAt(s, i) then Some(i) else FindFrom(s, i + 1)
  }

  /** `getObjectName(input)`: group 1 of the leftmost match, or `None` (Kotlin's `null`)
      when the pattern does not occur. */
  function ObjectName(input: string): (r: Option<string>)
    ensures r.None? <==> forall i :: 0 <= i < |input| ==> !MatchesAt(input, i)
    ensures r.Some? ==> exists i :: LeftmostMatch(input, i) && Captures(input, i, r.value)
    ensures r.Some? ==> |r.value| > 0 && forall p :: 0 <= p < |r.value| ==> IsWordChar(r.value[p])
  {
    match FindFrom(input, 0)
    case None => None
    case Some(i) =>
      var k := WordEnd(input, i);
      var w := input[i..k];
      assert LeftmostMatch(input, i);
      AssignsAtIffMatches(input, i);
      assert PatternAt(input, i, k, SpaceEnd(input, k));
      assert Captures(input, i, w);
      Some(w)
  }

  /** `\b(\w+)\s*=` does not recognise `==` as different from `=`: a comparison on the
      caret line also yields a name. */
  lemma ComparisonYieldsName()
    ensures ObjectName("x == y").Some?
  {
    var s := "x == y";
    assert PatternAt(s, 0, 1, 2);
  }

  /** The name on an indented assignment line is its left-hand side. */
  lemma IndentedAssignmentName()
    ensures ObjectName("  x = y;") == Some("x")
  {
    var line := "  x = y;";
    AssignsAtIffMatches(line, 0);
    AssignsAtIffMatches(line, 1);
    assert PatternAt(line, 2, 3, 4);
    assert MatchesAt(line, 2);
    var w := ObjectName(line).value;
    var i: nat :| LeftmostMatch(line, i) && Captures(line, i, w);
    assert i == 2;
    var k: nat, m: nat :| PatternAt(line, i, k, m) && w == line[i..k];
    PatternIsMaximal(line, i, k, m);
    assert WordEnd(line, 2) == 3;
    assert w == line[2..3] == "x";
  }
}
