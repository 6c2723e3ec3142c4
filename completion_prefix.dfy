/**
 * The completion prefix: the text before the cursor on the cursor's line is
 * searched for runs of the pattern `([\w.]|->)+`, left to right and without
 * overlap, and the last run found is the prefix sent to the analyzer
 * (`""` when there is none). This lets `List.ma` or `r->fie` be completed
 * as a whole rather than from the last word only.
 *
 * The pattern is modelled as a scanner over tokens: a word character or `.`
 * is a token of length 1, the two characters `->` a token of length 2.
 */
module CompletionPrefix {

  /** `\w`, restricted to ASCII. */
  predicate IsWordChar(c: char) {
    'a' <= c <= 'z' || 'A' <= c <= 'Z' || '0' <= c <= '9' || c == '_'
  }

  /** `[\w.]` */
  predicate IsNameChar(c: char) {
    IsWordChar(c) || c == '.'
  }

  /** Length of the token that starts at `i`: 1 for `[\w.]`, 2 for `->`, 0 when none does. */
  function TokenAt(s: string, i: nat): (n: nat)
    ensures n <= 2
    ensures n > 0 ==> i + n <= |s|
  {
    if i < |s| && IsNameChar(s[i]) then 1
    else if i + 1 < |s| && s[i] == '-' && s[i + 1] == '>' then 2
    else 0
  }

  /** A token ends just before position `i`. */
  predicate TokenEndsAt(s: string, i: nat)
    requires i <= |s|
  {
    (i >= 1 && IsNameChar(s[i - 1])) || (i >= 2 && s[i - 2] == '-' && s[i - 1] == '>')
  }

  /** `p` is one or more tokens of the pattern, one after another. */
  predicate IsRun(p: string)
    decreases |p|
  {
    if |p| >= 1 && IsNameChar(p[0]) then |p| == 1 || IsRun(p[1..])
    else |p| >= 2 && p[0] == '-' && p[1] == '>' && (|p| == 2 || IsRun(p[2..]))
  }

  /**
   * End of the greedy run of tokens that starts at `i`: the pattern keeps
   * taking tokens until none starts where it stands.
   */
  function RunEnd(s: string, i: nat): (e: nat)
    requires i <= |s|
    ensures i <= e <= |s| && TokenAt(s, e) == 0
    ensures TokenAt(s, i) > 0 ==> i < e && IsRun(s[i..e])
    ensures i < e ==> s[e - 1] != '-'
    decreases |s| - i
  {
    var n := TokenAt(s, i);
    if n == 0 then i
    else
      var e := RunEnd(s, i + n);
      assert e > i + n ==> s[i..e][n..] == s[i + n..e];
      e
  }

  /** The `(begin, end)` of every match `findall` reports from position `i` on, in order. */
  function Matches(s: string, i: nat): (ms: seq<(nat, nat)>)
    requires i <= |s|
    ensures forall k :: 0 <= k < |ms| ==> i <= ms[k].0 < ms[k].1 <= |s|
    decreases |s| - i
  {
    if i == |s| then []
    else if TokenAt(s, i) == 0 then Matches(s, i + 1)
    else [(i, RunEnd(s, i))] + Matches(s, RunEnd(s, i))
  }

  /** The completion prefix: the last match, or `""` when there is none. */
  function Prefix(line: string): string {
    var ms := Matches(line, 0);
    if ms == [] then "" else line[ms[|ms| - 1].0..ms[|ms| - 1].1]
  }

  /** The scanner never stands between the `-` and the `>` of an arrow. */
  predicate NotMidArrow(s: string, i: nat) {
    !(1 <= i < |s| && s[i - 1] == '-' && s[i] == '>')
  }

  /** What holds wherever the scan stands: a match starting here is maximal to the left. */
  predicate ScanPosition(s: string, i: nat)
    requires i <= |s|
  {
    NotMidArrow(s, i) && (i == 0 || TokenAt(s, i) == 0 || !TokenEndsAt(s, i))
  }

  /** Stepping past a position where no token starts keeps the scan's invariant. */
  lemma SkipKeepsScanPosition(s: string, i: nat)
    requires i < |s| && ScanPosition(s, i) && TokenAt(s, i) == 0
    ensures ScanPosition(s, i + 1)
  {
  }

  /** Stopping at the end of a run keeps the scan's invariant. */
  lemma RunEndKeepsScanPosition(s: string, i: nat)
    requires i < |s| && TokenAt(s, i) > 0
    ensures ScanPosition(s, RunEnd(s, i))
  {
  }

  /** Last match property of the scan from `i` on. */
  ghost predicate LastMatchFrom(s: string, i: nat)
    requires i <= |s|
  {
    var ms := Matches(s, i);
    (ms == [] <==> forall j :: i <= j < |s| ==> TokenAt(s, j) == 0) &&
    (ms != [] ==>
      var m := ms[|ms| - 1];
      m.1 == RunEnd(s, m.0) && (m.0 == 0 || !TokenEndsAt(s, m.0)) &&
      forall j :: m.1 <= j < |s| ==> TokenAt(s, j) == 0)
  }

  lemma {:induction false} MatchesLast(s: string, i: nat)
    requires i <= |s| && ScanPosition(s, i)
    ensures LastMatchFrom(s, i)
    decreases |s| - i
  {
    if i == |s| {
    } else if TokenAt(s, i) == 0 {
      SkipKeepsScanPosition(s, i);
      MatchesLast(s, i + 1);
      assert Matches(s, i) == Matches(s, i + 1);
    } else {
      var e := RunEnd(s, i);
      RunEndKeepsScanPosition(s, i);
      MatchesLast(s, e);
      MatchRunStep(s, i);
    }
  }

  /** One run followed by the rest of the scan. */
  lemma MatchRunStep(s: string, i: nat)
    requires i < |s| && ScanPosition(s, i) && TokenAt(s, i) > 0
    requires LastMatchFrom(s, RunEnd(s, i))
    ensures LastMatchFrom(s, i)
  {
    var e := RunEnd(s, i);
    var rest := Matches(s, e);
    var ms := Matches(s, i);
    assert ms == [(i, e)] + rest;
    if rest != [] {
      assert ms[|ms| - 1] == rest[|rest| - 1];
    }
  }

  /** The prefix is empty exactly when no character of the line starts a token. */
  lemma PrefixEmptyIff(line: string)
    ensures Prefix(line) == "" <==> forall j :: 0 <= j < |line| ==> TokenAt(line, j) == 0
  {
    MatchesLast(line, 0);
  }

  /**
   * A non-empty prefix sits in the line at `b`, consists of tokens only, cannot
   * be extended on either side, and no token starts anywhere after it.
   */
  lemma PrefixIsLastRun(line: string) returns (b: nat)
    requires Prefix(line) != ""
    ensures b + |Prefix(line)| <= |line| && line[b..b + |Prefix(line)|] == Prefix(line)
    ensures IsRun(Prefix(line))
    ensures RunEnd(line, b) == b + |Prefix(line)|
    ensures b == 0 || !TokenEndsAt(line, b)
    ensures forall j :: b + |Prefix(line)| <= j < |line| ==> TokenAt(line, j) == 0
  {
    MatchesLast(line, 0);
    var ms := Matches(line, 0);
    b := ms[|ms| - 1].0;
  }
}
