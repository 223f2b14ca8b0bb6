/**
 * The sentence splitter `re.split(r'(?<=[.!?])\s+', text)`.
 */
module Sentences {
  import opened Text
  import opened Normalizer

  /** Position `i` starts a separator: it is whitespace preceded by `.`, `!` or `?`. */
  predicate BreakAt(s: string, i: int) {
    0 < i < |s| && IsTerminator(s[i - 1]) && IsSpace(s[i])
  }

  /** The first separator at or after `from`, or `|s|` when there is none. */
  function FirstBreak(s: string, from: nat): (i: nat)
    requires from <= |s|
    ensures from <= i <= |s|
    ensures i < |s| ==> BreakAt(s, i)
    ensures forall k :: from <= k < i ==> !BreakAt(s, k)
    decreases |s| - from
  {
    if from == |s| || BreakAt(s, from) then from else FirstBreak(s, from + 1)
  }

  /** Length of the whitespace run at the start of `s` (the greedy `\s+`). */
  function SpaceRun(s: string): (n: nat)
    ensures n <= |s|
    ensures forall k :: 0 <= k < n ==> IsSpace(s[k])
    ensures n < |s| ==> !IsSpace(s[n])
  {
    if s != [] && IsSpace(s[0]) then 1 + SpaceRun(s[1..]) else 0
  }

  /**
   * `re.split`: the pieces between separators, the separators themselves
   * dropped and each terminator left on the sentence it ends. The empty
   * string gives one empty piece, as in Python.
   */
  function SplitSentences(s: string): (r: seq<string>)
    ensures |r| >= 1
    decreases |s|
  {
    var i := FirstBreak(s, 0);
    if i == |s| then [s]
    else [s[..i]] + SplitSentences(s[i + SpaceRun(s[i..])..])
  }

  /** `' '.join(...)` peeled from the left. */
  lemma {:induction false} JoinFront(sep: string, a: string, rest: seq<string>)
    requires rest != []
    ensures JoinWith(sep, [a] + rest) == a + sep + JoinWith(sep, rest)
    decreases |rest|
  {
    var all := [a] + rest;
    if |rest| > 1 {
      JoinFront(sep, a, rest[..|rest| - 1]);
      assert all[..|all| - 1] == [a] + rest[..|rest| - 1];
    }
  }

  /** A sentence of normalised text: non-empty, normalised itself, and with no separator inside. */
  predicate IsSentence(s: string) {
    s != [] && Clean(s) && forall i :: 0 <= i < |s| ==> !BreakAt(s, i)
  }

  /** The text before the first separator of normalised text is a sentence ending in a terminator; the text after the one-blank separator is normalised and non-empty. */
  lemma FirstSentence(t: string, i: nat)
    requires Clean(t) && i == FirstBreak(t, 0) && i < |t|
    ensures IsSentence(t[..i]) && IsTerminator(Last(t[..i]))
    ensures SpaceRun(t[i..]) == 1
    ensures i + 1 < |t| && Clean(t[i + 1..])
    ensures t == t[..i] + " " + t[i + 1..]
  {
    assert t[i] == ' ';
    HeadIsSentence(t, i);
    SeparatorIsOneBlank(t, i);
    TailIsClean(t, i);
  }

  lemma HeadIsSentence(t: string, i: nat)
    requires Clean(t) && i == FirstBreak(t, 0) && i < |t|
    ensures IsSentence(t[..i]) && IsTerminator(Last(t[..i]))
  {
    var head := t[..i];
    SliceKeepsShape(t, 0, i);
    assert head[|head| - 1] == t[i - 1];
    forall k | 0 <= k < |head| ensures !BreakAt(head, k) {
      assert !BreakAt(t, k);
    }
  }

  lemma SeparatorIsOneBlank(t: string, i: nat)
    requires Clean(t) && BreakAt(t, i)
    ensures SpaceRun(t[i..]) == 1
  {
    var u := t[i..];
    assert u[0] == ' ';
    assert |u| > 1 ==> u[1] == t[i + 1];
  }

  lemma TailIsClean(t: string, i: nat)
    requires Clean(t) && BreakAt(t, i)
    ensures i + 1 < |t| && Clean(t[i + 1..])
    ensures t == t[..i] + " " + t[i + 1..]
  {
    assert t[i] == ' ';
    assert t[|t| - 1] != ' ';
    SliceKeepsShape(t, i + 1, |t|);
  }

  /**
   * On normalised, non-empty text the splitter yields non-empty sentences,
   * each but the last ending in a terminator, that join back to the text.
   */
  lemma {:induction false} SplitCleanText(t: string)
    requires Clean(t) && t != []
    ensures forall k :: 0 <= k < |SplitSentences(t)| ==>
      IsSentence(SplitSentences(t)[k]) && (k < |SplitSentences(t)| - 1 ==> IsTerminator(Last(SplitSentences(t)[k])))
    ensures JoinWith(" ", SplitSentences(t)) == t
    decreases |t|
  {
    var i := FirstBreak(t, 0);
    if i == |t| {
      assert SplitSentences(t) == [t];
    } else {
      FirstSentence(t, i);
      var head, rest := t[..i], t[i + 1..];
      assert SplitSentences(t) == [head] + SplitSentences(rest);
      SplitCleanText(rest);
      JoinFront(" ", head, SplitSentences(rest));
      SentencesCons(head, SplitSentences(rest));
    }
  }

  /** A terminated sentence in front of well-split sentences keeps them well split. */
  lemma SentencesCons(head: string, rs: seq<string>)
    requires IsSentence(head) && IsTerminator(Last(head))
    requires forall k :: 0 <= k < |rs| ==> IsSentence(rs[k]) && (k < |rs| - 1 ==> IsTerminator(Last(rs[k])))
    ensures var ss := [head] + rs;
      forall k :: 0 <= k < |ss| ==> IsSentence(ss[k]) && (k < |ss| - 1 ==> IsTerminator(Last(ss[k])))
  {
    var ss := [head] + rs;
    forall k | 0 <= k < |ss| ensures IsSentence(ss[k]) && (k < |ss| - 1 ==> IsTerminator(Last(ss[k]))) {
      if k > 0 {
        assert ss[k] == rs[k - 1];
      }
    }
  }

  function Last(s: string): char
    requires s != []
  {
    s[|s| - 1]
  }

  /** Empty text splits into a single empty piece. */
  lemma SplitEmpty()
    ensures SplitSentences("") == [""]
  {
  }
}
