/**
 * The text normaliser `preprocess_text`: three regular-expression
 * substitutions followed by `strip()`.
 */
module Normalizer {
  import opened Text
  import opened Tokenizer

  /**
   * `re.sub(P + '+', ' ', s)` where `P` is the character class `p`: every
   * maximal run of characters satisfying `p` becomes a single blank. A run
   * is consumed one character at a time; the blank is written when the run
   * ends.
   */
  function CollapseRuns(s: string, p: char -> bool): (r: string)
    ensures |r| <= |s|
    ensures s != [] ==> |r| > 0 && r[0] == (if p(s[0]) then ' ' else s[0])
    ensures forall i :: 0 <= i < |r| ==> r[i] == ' ' || (!p(r[i]) && r[i] in s)
    ensures p(' ') ==> forall i :: 0 < i < |r| ==> !(p(r[i - 1]) && p(r[i]))
    decreases |s|
  {
    if s == [] then []
    else if p(s[0]) then
      if |s| > 1 && p(s[1]) then CollapseRuns(s[1..], p) else [' '] + CollapseRuns(s[1..], p)
    else [s[0]] + CollapseRuns(s[1..], p)
  }

  /** One character of `re.sub(r'[^\w\s.,;:!?()\-\'""]', ' ', s)`. */
  function ReplaceChar(c: char): (r: char)
    ensures IsAllowed(r)
    ensures IsWordChar(r) <==> IsWordChar(c)
    ensures IsSpace(r) ==> r == c || r == ' '
  {
    if IsAllowed(c) then c else ' '
  }

  /** `re.sub(r'[^\w\s.,;:!?()\-\'""]', ' ', s)`: every character outside the whitelist becomes a blank. */
  function ReplaceDisallowed(s: string): (r: string)
    ensures |r| == |s|
    ensures forall i :: 0 <= i < |s| ==> r[i] == ReplaceChar(s[i])
  {
    if s == [] then [] else [ReplaceChar(s[0])] + ReplaceDisallowed(s[1..])
  }

  /** Length of the leading whitespace of `s`. */
  function LeadingSpaces(s: string): (n: nat)
    ensures n <= |s|
    ensures forall k :: 0 <= k < n ==> IsSpace(s[k])
    ensures n < |s| ==> !IsSpace(s[n])
  {
    if s != [] && IsSpace(s[0]) then 1 + LeadingSpaces(s[1..]) else 0
  }

  /** `lstrip()`: drops the leading whitespace. */
  function TrimStart(s: string): (r: string)
    ensures |r| <= |s| && r == s[|s| - |r|..]
    ensures r == [] || !IsSpace(r[0])
    ensures forall k :: 0 <= k < |s| - |r| ==> IsSpace(s[k])
  {
    s[LeadingSpaces(s)..]
  }

  /** `rstrip()`: drops the trailing whitespace. */
  function TrimEnd(s: string): (r: string)
    ensures |r| <= |s| && r == s[..|r|]
    ensures r == [] || !IsSpace(r[|r| - 1])
    ensures forall k :: |r| <= k < |s| ==> IsSpace(s[k])
  {
    if s != [] && IsSpace(s[|s| - 1]) then TrimEnd(s[..|s| - 1]) else s
  }

  /** `strip()`. */
  function Trim(s: string): string {
    TrimEnd(TrimStart(s))
  }

  /** Every character is a word character, whitespace or kept punctuation. */
  predicate AllAllowed(s: string) {
    forall i :: 0 <= i < |s| ==> IsAllowed(s[i])
  }

  /** The only whitespace character is the blank. */
  predicate OnlyBlanks(s: string) {
    forall i :: 0 <= i < |s| ==> IsSpace(s[i]) ==> s[i] == ' '
  }

  /** No two consecutive blanks. */
  predicate NoDoubleBlank(s: string) {
    forall i :: 0 < i < |s| ==> !(s[i - 1] == ' ' && s[i] == ' ')
  }

  /** No blank at either end. */
  predicate Trimmed(s: string) {
    s == [] || (s[0] != ' ' && s[|s| - 1] != ' ')
  }

  /** The shape of every output of the normaliser. */
  predicate Clean(s: string) {
    AllAllowed(s) && OnlyBlanks(s) && NoDoubleBlank(s) && Trimmed(s)
  }

  /** `preprocess_text`. */
  function Preprocess(text: string): (r: string)
    ensures Clean(r)
  {
    var a := CollapseRuns(text, IsSpace);
    var b := ReplaceDisallowed(a);
    var c := CollapseRuns(b, IsBlank);
    CleanAfterSteps(text, a, b, c);
    Trim(c)
  }

  lemma CleanAfterSteps(text: string, a: string, b: string, c: string)
    requires a == CollapseRuns(text, IsSpace)
    requires b == ReplaceDisallowed(a)
    requires c == CollapseRuns(b, IsBlank)
    ensures Clean(Trim(c))
  {
    CollapsedSpacesAreBlanks(text, a);
    ReplacedIsAllowed(a, b);
    CollapsedBlanksAreSingle(b, c);
    TrimmedIsClean(c);
  }

  lemma TrimmedIsClean(c: string)
    requires OnlyBlanks(c) && AllAllowed(c) && NoDoubleBlank(c)
    ensures Clean(Trim(c))
  {
    var lo, hi := TrimBounds(c);
    SliceKeepsShape(c, lo, hi);
    TrimEnds(c);
    assert IsSpace(' ');
  }

  /** `strip()` keeps a slice of its input. */
  lemma TrimBounds(c: string) returns (lo: nat, hi: nat)
    ensures lo <= hi <= |c| && Trim(c) == c[lo..hi]
  {
    var t := TrimStart(c);
    var u := TrimEnd(t);
    lo := |c| - |t|;
    hi := lo + |u|;
    assert t == c[lo..] && u == t[..|u|];
    assert c[lo..][..|u|] == c[lo..hi];
  }

  /** Neither end of the result of `strip()` is whitespace. */
  lemma TrimEnds(c: string)
    ensures Trim(c) == [] || (!IsSpace(Trim(c)[0]) && !IsSpace(Trim(c)[|Trim(c)| - 1]))
  {
    var t := TrimStart(c);
    var u := TrimEnd(t);
    if u != [] {
      assert u[0] == t[0];
    }
  }

  lemma CollapsedSpacesAreBlanks(text: string, a: string)
    requires a == CollapseRuns(text, IsSpace)
    ensures OnlyBlanks(a)
  {
  }

  lemma ReplacedIsAllowed(a: string, b: string)
    requires OnlyBlanks(a) && b == ReplaceDisallowed(a)
    ensures OnlyBlanks(b) && AllAllowed(b)
  {
  }

  lemma CollapsedBlanksAreSingle(b: string, c: string)
    requires OnlyBlanks(b) && AllAllowed(b) && c == CollapseRuns(b, IsBlank)
    ensures OnlyBlanks(c) && AllAllowed(c) && NoDoubleBlank(c)
  {
    forall i | 0 <= i < |c| ensures IsAllowed(c[i]) && (IsSpace(c[i]) ==> c[i] == ' ') {
      if c[i] != ' ' {
        var j :| 0 <= j < |b| && b[j] == c[i];
      }
    }
  }

  lemma SliceKeepsShape(s: string, lo: nat, hi: nat)
    requires lo <= hi <= |s|
    requires AllAllowed(s) && OnlyBlanks(s) && NoDoubleBlank(s)
    ensures AllAllowed(s[lo..hi]) && OnlyBlanks(s[lo..hi]) && NoDoubleBlank(s[lo..hi])
  {
    var t := s[lo..hi];
    assert forall i :: 0 <= i < |t| ==> t[i] == s[lo + i];
  }

  /** A clean string passes through every step unchanged. */
  lemma {:induction false} CollapseRunsOfCleanIsIdentity(s: string, p: char -> bool)
    requires forall i :: 0 <= i < |s| ==> p(s[i]) ==> s[i] == ' '
    requires forall i :: 0 < i < |s| ==> !(p(s[i - 1]) && p(s[i]))
    ensures CollapseRuns(s, p) == s
    decreases |s|
  {
    if s != [] {
      var t := s[1..];
      assert forall i :: 0 < i < |t| ==> t[i - 1] == s[i] && t[i] == s[i + 1];
      CollapseRunsOfCleanIsIdentity(t, p);
      assert s == [s[0]] + t;
    }
  }

  lemma {:induction false} ReplaceOfAllowedIsIdentity(s: string)
    requires AllAllowed(s)
    ensures ReplaceDisallowed(s) == s
  {
    assert forall i :: 0 <= i < |s| ==> ReplaceDisallowed(s)[i] == s[i];
  }

  lemma TrimOfTrimmedIsIdentity(s: string)
    requires OnlyBlanks(s) && Trimmed(s)
    ensures Trim(s) == s
  {
  }

  /** A clean string is a fixed point of the normaliser. */
  lemma CleanIsFixedPoint(s: string)
    requires Clean(s)
    ensures Preprocess(s) == s
  {
    CollapseRunsOfCleanIsIdentity(s, IsSpace);
    ReplaceOfAllowedIsIdentity(s);
    CollapseRunsOfCleanIsIdentity(s, IsBlank);
    TrimOfTrimmedIsIdentity(s);
  }

  /** Normalising twice is the same as normalising once. */
  lemma PreprocessIdempotent(text: string)
    ensures Preprocess(Preprocess(text)) == Preprocess(text)
  {
    CleanIsFixedPoint(Preprocess(text));
  }

  // ---------------------------------------------------------------
  // The normaliser keeps every word: it only rewrites, merges and trims
  // separators, and never removes the last separator between two words.
  // ---------------------------------------------------------------

  predicate StartsWithWordChar(s: string) {
    s != [] && IsWordChar(s[0])
  }

  /** How `findall` sees one more character in front of a string. */
  lemma ConsWordRuns(c: char, x: string)
    ensures StartsWithWordChar(x) ==> |WordRuns(x)| > 0
    ensures WordRuns([c] + x) ==
      if !IsWordChar(c) then WordRuns(x)
      else if StartsWithWordChar(x) then [[c] + WordRuns(x)[0]] + WordRuns(x)[1..]
      else [[c]] + WordRuns(x)
  {
    var s := [c] + x;
    assert s[1..] == x;
    if IsWordChar(c) {
      var m := RunLength(x);
      assert RunLength(s) == 1 + m;
      assert s[..1 + m] == [c] + x[..m];
      assert s[1 + m..] == x[m..];
    }
  }

  /** Two strings with the same runs and the same kind of first character keep the same runs under a common first character. */
  lemma ConsCongruence(c: char, x: string, y: string)
    requires WordRuns(x) == WordRuns(y)
    requires StartsWithWordChar(x) == StartsWithWordChar(y)
    ensures WordRuns([c] + x) == WordRuns([c] + y)
  {
    ConsWordRuns(c, x);
    ConsWordRuns(c, y);
  }

  /** The characters of `s` outside the class `p`, in order. */
  function Keep(p: char -> bool, s: string): string
    decreases |s|
  {
    if s == [] then [] else if p(s[0]) then Keep(p, s[1..]) else [s[0]] + Keep(p, s[1..])
  }

  /**
   * Collapsing the runs of a class that contains the blank keeps every
   * character outside the class, in order: only run characters are
   * replaced or dropped.
   */
  lemma {:induction false} CollapseRunsKeepsOthers(s: string, p: char -> bool)
    requires p(' ')
    ensures Keep(p, CollapseRuns(s, p)) == Keep(p, s)
    decreases |s|
  {
    if s != [] {
      var t := s[1..];
      var r := CollapseRuns(t, p);
      CollapseRunsKeepsOthers(t, p);
      if p(s[0]) {
        if !(|t| > 0 && p(t[0])) {
          assert ([' '] + r)[1..] == r;
        }
      } else {
        assert ([s[0]] + r)[1..] == r;
      }
    }
  }

  /** A non-empty run of the class, followed by the end or by a character outside it, becomes one blank. */
  lemma {:induction false} CollapseRunsOfRun(w: string, y: string, p: char -> bool)
    requires w != [] && forall k :: 0 <= k < |w| ==> p(w[k])
    requires y == [] || !p(y[0])
    ensures CollapseRuns(w + y, p) == [' '] + CollapseRuns(y, p)
    decreases |w|
  {
    var s := w + y;
    assert s[0] == w[0];
    if |w| == 1 {
      assert s[1..] == y;
    } else {
      assert s[1..] == w[1..] + y;
      assert s[1] == w[1];
      CollapseRunsOfRun(w[1..], y, p);
    }
  }

  /** Text that ends outside the class is collapsed independently of what follows it. */
  lemma {:induction false} CollapseRunsAppend(x: string, z: string, p: char -> bool)
    requires x == [] || !p(x[|x| - 1])
    ensures CollapseRuns(x + z, p) == CollapseRuns(x, p) + CollapseRuns(z, p)
    decreases |x|
  {
    if x == [] {
      assert x + z == z;
    } else {
      var c, t := x[0], x[1..];
      assert x == [c] + t && x + z == [c] + (t + z);
      assert t == [] || t[|t| - 1] == x[|x| - 1];
      CollapseRunsAppend(t, z, p);
      CollapseRunsStep(c, t, p);
      CollapseRunsStep(c, t + z, p);
      if t != [] {
        assert (t + z)[0] == t[0];
      }
      var h: string := if p(c) then (if t != [] && p(t[0]) then [] else [' ']) else [c];
      Assoc(h, CollapseRuns(t, p), CollapseRuns(z, p));
    }
  }

  /** One step of the collapse, on a first character and the rest. */
  lemma CollapseRunsStep(c: char, t: string, p: char -> bool)
    ensures CollapseRuns([c] + t, p) ==
      if p(c) then (if t != [] && p(t[0]) then CollapseRuns(t, p) else [' '] + CollapseRuns(t, p))
      else [c] + CollapseRuns(t, p)
  {
    var s := [c] + t;
    assert s[0] == c && s[1..] == t;
    if t != [] {
      assert s[1] == t[0];
    }
  }

  lemma Assoc(a: string, b: string, c: string)
    ensures a + (b + c) == a + b + c
  {
  }

  /**
   * `re.sub(P + '+', ' ', s)` in one step: a maximal run of the class between
   * two characters outside it (or the ends) becomes exactly one blank in its
   * place, and the text around it is collapsed as before.
   */
  lemma CollapseRunsSplit(x: string, w: string, y: string, p: char -> bool)
    requires x == [] || !p(x[|x| - 1])
    requires w != [] && forall k :: 0 <= k < |w| ==> p(w[k])
    requires y == [] || !p(y[0])
    ensures CollapseRuns(x + w + y, p) == CollapseRuns(x, p) + [' '] + CollapseRuns(y, p)
  {
    Regroup(x, w, y, CollapseRuns(x, p), CollapseRuns(y, p));
    CollapseRunsAppend(x, w + y, p);
    CollapseRunsOfRun(w, y, p);
  }

  lemma Regroup(x: string, w: string, y: string, a: string, b: string)
    ensures x + w + y == x + (w + y)
    ensures a + [' '] + b == a + ([' '] + b)
  {
  }

  /** Text without a character of the class is left unchanged. */
  lemma {:induction false} CollapseRunsOfNone(s: string, p: char -> bool)
    requires forall k :: 0 <= k < |s| ==> !p(s[k])
    ensures CollapseRuns(s, p) == s
    decreases |s|
  {
    if s != [] {
      assert forall k :: 0 <= k < |s[1..]| ==> !p(s[1..][k]) by {
        forall k | 0 <= k < |s[1..]| ensures !p(s[1..][k]) {
          assert s[1..][k] == s[k + 1];
        }
      }
      CollapseRunsOfNone(s[1..], p);
      assert s == [s[0]] + s[1..];
    }
  }

  lemma {:induction false} CollapseRunsKeepsWords(s: string, p: char -> bool)
    requires forall c :: p(c) ==> !IsWordChar(c)
    ensures WordRuns(CollapseRuns(s, p)) == WordRuns(s)
    ensures StartsWithWordChar(CollapseRuns(s, p)) == StartsWithWordChar(s)
    decreases |s|
  {
    if s != [] {
      var t := s[1..];
      var r := CollapseRuns(t, p);
      CollapseRunsKeepsWords(t, p);
      assert s == [s[0]] + t;
      if p(s[0]) {
        ConsWordRuns(' ', r);
        ConsWordRuns(s[0], t);
      } else {
        ConsCongruence(s[0], r, t);
      }
    }
  }

  lemma {:induction false} ReplaceKeepsWords(s: string)
    ensures WordRuns(ReplaceDisallowed(s)) == WordRuns(s)
    ensures StartsWithWordChar(ReplaceDisallowed(s)) == StartsWithWordChar(s)
  {
    if s != [] {
      var t := s[1..];
      var r := ReplaceDisallowed(t);
      ReplaceKeepsWords(t);
      assert s == [s[0]] + t;
      assert ReplaceDisallowed(s) == [ReplaceChar(s[0])] + r;
      if IsWordChar(s[0]) {
        ConsCongruence(s[0], r, t);
      } else {
        ConsWordRuns(ReplaceChar(s[0]), r);
        ConsWordRuns(s[0], t);
      }
    }
  }

  lemma {:induction false} SnocNonWord(x: string, c: char)
    requires !IsWordChar(c)
    ensures WordRuns(x + [c]) == WordRuns(x)
    ensures StartsWithWordChar(x + [c]) == StartsWithWordChar(x)
  {
    if x == [] {
      assert WordRuns([c]) == WordRuns([]);
    } else {
      var y := x[1..];
      SnocNonWord(y, c);
      assert x + [c] == [x[0]] + (y + [c]);
      assert x == [x[0]] + y;
      ConsCongruence(x[0], y + [c], y);
    }
  }

  lemma {:induction false} TrimStartKeepsWords(s: string)
    ensures WordRuns(TrimStart(s)) == WordRuns(s)
  {
    if s != [] && IsSpace(s[0]) {
      TrimStartKeepsWords(s[1..]);
      assert TrimStart(s) == TrimStart(s[1..]);
      WordCharsAreNotSpaces(s[0]);
      assert WordRuns(s) == WordRuns(s[1..]);
    }
  }

  lemma {:induction false} TrimEndKeepsWords(s: string)
    ensures WordRuns(TrimEnd(s)) == WordRuns(s)
  {
    if s != [] && IsSpace(s[|s| - 1]) {
      var x := s[..|s| - 1];
      TrimEndKeepsWords(x);
      assert s == x + [s[|s| - 1]];
      SnocNonWord(x, s[|s| - 1]);
    }
  }

  /** Every word of the raw text survives normalisation, in order and unchanged. */
  lemma PreprocessKeepsWords(text: string)
    ensures WordRuns(Preprocess(text)) == WordRuns(text)
  {
    var a := CollapseRuns(text, IsSpace);
    var b := ReplaceDisallowed(a);
    var c := CollapseRuns(b, IsBlank);
    CollapseRunsKeepsWords(text, IsSpace);
    ReplaceKeepsWords(a);
    CollapseRunsKeepsWords(b, IsBlank);
    TrimStartKeepsWords(c);
    TrimEndKeepsWords(TrimStart(c));
  }
}
