/**
 * The word tokeniser `re.findall(r'\b\w+\b', s)`: the maximal runs of word
 * characters of `s`, left to right.
 */
module Tokenizer {
  import opened Text

  /** Length of the run of word characters at the start of `s`. */
  function RunLength(s: string): (n: nat)
    ensures n <= |s|
    ensures forall k :: 0 <= k < n ==> IsWordChar(s[k])
    ensures n < |s| ==> !IsWordChar(s[n])
  {
    if s != [] && IsWordChar(s[0]) then 1 + RunLength(s[1..]) else 0
  }

  /**
   * The scan `findall` performs: skip a non-word character, or take the
   * whole (greedy) run of word characters that starts here.
   */
  function WordRuns(s: string): (r: seq<string>)
    decreases |s|
  {
    if s == [] then []
    else if !IsWordChar(s[0]) then WordRuns(s[1..])
    else
      var n := RunLength(s);
      [s[..n]] + WordRuns(s[n..])
  }

  /** `set(re.findall(r'\b\w+\b', s))`. */
  function Tokens(s: string): set<string> {
    set w | w in WordRuns(s)
  }

  /**
   * `s[i..j]` is a maximal run of word characters: non-empty, made of word
   * characters only, and bounded on both sides by a non-word character or
   * an end of `s` (the two `\b` of the pattern).
   */
  predicate MaximalRun(s: string, i: nat, j: nat) {
    && i < j <= |s|
    && (forall k :: i <= k < j ==> IsWordChar(s[k]))
    && (i == 0 || !IsWordChar(s[i - 1]))
    && (j == |s| || !IsWordChar(s[j]))
  }

  /** A maximal run of a suffix is a maximal run of the whole string when its left edge stays a boundary. */
  lemma RunFromSuffix(s: string, m: nat, i: nat, j: nat)
    requires m <= |s| && MaximalRun(s[m..], i, j)
    requires i > 0 || m == 0 || !IsWordChar(s[m - 1])
    ensures MaximalRun(s, i + m, j + m) && s[i + m..j + m] == s[m..][i..j]
  {
    var t := s[m..];
    assert forall k :: i + m <= k < j + m ==> s[k] == t[k - m];
  }

  /** A maximal run of `s` that starts at or after `m` is a maximal run of `s[m..]`. */
  lemma RunToSuffix(s: string, m: nat, i: nat, j: nat)
    requires m <= i && MaximalRun(s, i, j)
    ensures MaximalRun(s[m..], i - m, j - m) && s[i..j] == s[m..][i - m..j - m]
  {
    var t := s[m..];
    assert forall k :: i - m <= k < j - m ==> t[k] == s[k + m];
  }

  /** The run at the start of `s` is the only maximal run that starts before `RunLength(s)`. */
  lemma LeadingRun(s: string, i: nat, j: nat)
    requires s != [] && IsWordChar(s[0]) && MaximalRun(s, i, j)
    ensures MaximalRun(s, 0, RunLength(s))
    ensures (i == 0 && j == RunLength(s)) || i > RunLength(s)
  {
    var n := RunLength(s);
  }

  /** Every token is a maximal run of word characters, and every maximal run is a token. */
  lemma TokensAreMaximalRuns(s: string, w: string)
    ensures w in WordRuns(s) <==> exists i: nat, j: nat :: MaximalRun(s, i, j) && s[i..j] == w
  {
    if w in WordRuns(s) {
      var i, j := TokenPosition(s, w);
    }
    if exists i: nat, j: nat :: MaximalRun(s, i, j) && s[i..j] == w {
      var i: nat, j: nat :| MaximalRun(s, i, j) && s[i..j] == w;
      MaximalRunIsToken(s, i, j);
    }
  }

  /** How far the scan of `findall` moves from the start of `s`: past the leading run, or one character. */
  function Step(s: string): (m: nat)
    requires s != []
    ensures 0 < m <= |s|
  {
    if IsWordChar(s[0]) then RunLength(s) else 1
  }

  /** The tokens of `s` are its leading run, if any, and the tokens after the first step. */
  lemma WordRunsUnfold(s: string)
    requires s != []
    ensures WordRuns(s) == (if IsWordChar(s[0]) then [s[..Step(s)]] else []) + WordRuns(s[Step(s)..])
  {
  }

  lemma FirstRunIsMaximal(s: string)
    requires s != [] && IsWordChar(s[0])
    ensures MaximalRun(s, 0, RunLength(s))
  {
  }

  /** Where a token sits: a maximal run that spells it. */
  lemma {:induction false} TokenPosition(s: string, w: string) returns (i: nat, j: nat)
    requires w in WordRuns(s)
    ensures MaximalRun(s, i, j) && s[i..j] == w
    decreases |s|
  {
    var m := Step(s);
    var t := s[m..];
    WordRunsUnfold(s);
    if IsWordChar(s[0]) && w == s[..m] {
      i, j := 0, m;
      FirstRunIsMaximal(s);
    } else {
      assert w in WordRuns(t);
      var a, b := TokenPosition(t, w);
      RunFromSuffix(s, m, a, b);
      i, j := a + m, b + m;
    }
  }

  /** A maximal run of word characters is a token. */
  lemma {:induction false} MaximalRunIsToken(s: string, i: nat, j: nat)
    requires MaximalRun(s, i, j)
    ensures s[i..j] in WordRuns(s)
    decreases |s|
  {
    var m := Step(s);
    var t := s[m..];
    WordRunsUnfold(s);
    if IsWordChar(s[0]) && i == 0 {
      LeadingRun(s, i, j);
      assert s[i..j] == s[..m];
    } else {
      if IsWordChar(s[0]) {
        LeadingRun(s, i, j);
      } else {
        assert i != 0;
      }
      RunToSuffix(s, m, i, j);
      MaximalRunIsToken(t, i - m, j - m);
    }
  }
}
