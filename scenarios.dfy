/**
 * A concrete search over two hand-written chunk records: the query
 * "Newton first law" puts the chunk about Newton's first law first.
 */
module Scenarios {
  import opened Text
  import opened Tokenizer
  import opened Retrieval

  predicate AllWordChars(w: string) {
    forall k :: 0 <= k < |w| ==> IsWordChar(w[k])
  }

  /** A word followed by a non-word character (or nothing) is one run. */
  lemma {:induction false} RunOfWord(w: string, b: string)
    requires AllWordChars(w) && (b == [] || !IsWordChar(b[0]))
    ensures RunLength(w + b) == |w|
    decreases |w|
  {
    if w != [] {
      assert (w + b)[1..] == w[1..] + b;
      assert AllWordChars(w[1..]) by {
        forall k | 0 <= k < |w[1..]| ensures IsWordChar(w[1..][k]) {
          assert w[1..][k] == w[k + 1];
        }
      }
      RunOfWord(w[1..], b);
    } else {
      assert w + b == b;
    }
  }

  /** The first token of a word followed by a non-word character is that word. */
  lemma WordRunsOfWord(w: string, b: string)
    requires w != [] && AllWordChars(w) && (b == [] || !IsWordChar(b[0]))
    ensures WordRuns(w + b) == [w] + WordRuns(b)
  {
    RunOfWord(w, b);
    var s := w + b;
    assert s[0] == w[0];
    assert s[..|w|] == w;
    assert s[|w|..] == b;
  }

  /** A leading non-word character is skipped. */
  lemma WordRunsSkip(c: char, t: string)
    requires !IsWordChar(c)
    ensures WordRuns([c] + t) == WordRuns(t)
  {
    assert ([c] + t)[1..] == t;
  }

  /** A word standing between two non-word characters (or the ends) is a token. */
  lemma WordIsToken(a: string, w: string, b: string)
    requires w != [] && AllWordChars(w)
    requires a == [] || !IsWordChar(a[|a| - 1])
    requires b == [] || !IsWordChar(b[0])
    ensures w in Tokens(a + w + b)
  {
    MiddleIsMaximalRun(a, w, b);
    MaximalRunIsToken(a + w + b, |a|, |a| + |w|);
  }

  lemma MiddleIsMaximalRun(a: string, w: string, b: string)
    requires w != [] && AllWordChars(w)
    requires a == [] || !IsWordChar(a[|a| - 1])
    requires b == [] || !IsWordChar(b[0])
    ensures MaximalRun(a + w + b, |a|, |a| + |w|) && (a + w + b)[|a|..|a| + |w|] == w
  {
    MiddleSlice(a, w, b);
    var s := a + w + b;
    assert |a| > 0 ==> s[|a| - 1] == a[|a| - 1];
    assert |a| + |w| < |s| ==> s[|a| + |w|] == b[0];
  }

  lemma MiddleSlice(a: string, w: string, b: string)
    requires AllWordChars(w)
    ensures (a + w + b)[|a|..|a| + |w|] == w
    ensures forall k :: |a| <= k < |a| + |w| ==> IsWordChar((a + w + b)[k])
  {
    var s := a + w + b;
    assert forall k :: |a| <= k < |a| + |w| ==> s[k] == w[k - |a|];
  }

  const Newton := "newton"
  const First := "first"
  const Law := "law"

  /** The query "Newton first law" and its lower-cased form. */
  const QueryTail := " " + First + " " + Law
  const Query := "Newton" + QueryTail
  const QueryLower := Newton + QueryTail

  const NewtonRest := " " + "states that objects at rest stay at rest unless acted upon by an external force"

  /** The text of the first chunk of the search scenario, and its lower-cased form. */
  const NewtonText := "Newton" + "'s " + First + " " + Law + NewtonRest
  const NewtonLower := Newton + "'s " + First + " " + Law + NewtonRest

  const EnergyRest := " can be converted from one form to another but cannot be created or destroyed according to conservation laws"
  const EnergyText := "Energy" + EnergyRest
  const EnergyLower := "energy" + EnergyRest

  const ScenarioChunks := [
    ChunkRecord("test_chunk_1", NewtonText, NewtonLower, "physics_textbook.pdf", "test_document", 0, 0, 0),
    ChunkRecord("test_chunk_2", EnergyText, EnergyLower, "physics_textbook.pdf", "test_document", 1, 0, 0)
  ]

  lemma Words()
    ensures AllWordChars(Newton) && AllWordChars(First) && AllWordChars(Law)
    ensures Newton != [] && First != [] && Law != []
  {
  }

  lemma LowerAppend(a: string, b: string)
    ensures Lower(a + b) == Lower(a) + Lower(b)
  {
    var l, r := Lower(a + b), Lower(a) + Lower(b);
    assert forall k :: 0 <= k < |l| ==> l[k] == r[k] by {
      forall k | 0 <= k < |l| ensures l[k] == r[k] {
        if k < |a| { assert (a + b)[k] == a[k]; } else { assert (a + b)[k] == b[k - |a|]; }
      }
    }
  }

  /** Text without upper-case letters is its own lower-case form. */
  lemma LowerOfLowerCase(s: string)
    requires forall k :: 0 <= k < |s| ==> !('A' <= s[k] <= 'Z')
    ensures Lower(s) == s
  {
    assert forall k :: 0 <= k < |s| ==> Lower(s)[k] == s[k];
  }

  lemma LowerNewton()
    ensures Lower("Newton") == Newton
  {
    assert "Newton" == "N" + "ewton";
    LowerAppend("N", "ewton");
    LowerOfLowerCase("ewton");
    assert Lower("N") == "n";
  }

  lemma LowerTail()
    ensures Lower(QueryTail) == QueryTail
  {
    LowerOfLowerCase(" ");
    LowerOfLowerCase(First);
    LowerOfLowerCase(Law);
    LowerAppend(" ", First);
    LowerAppend(" " + First, " ");
    LowerAppend(" " + First + " ", Law);
  }

  lemma QueryLowering()
    ensures Lower(Query) == QueryLower
  {
    LowerAppend("Newton", QueryTail);
    LowerNewton();
    LowerTail();
  }

  lemma SpacedJoin(a: string, b: string, c: string)
    ensures a + (" " + b + " " + c) == a + ([' '] + (b + ([' '] + c)))
  {
  }

  /** Three words separated by single spaces are its three tokens, in order. */
  lemma ThreeWords(a: string, b: string, c: string)
    requires a != [] && b != [] && c != []
    requires AllWordChars(a) && AllWordChars(b) && AllWordChars(c)
    ensures WordRuns(a + (" " + b + " " + c)) == [a, b, c]
  {
    var tc := [' '] + c;
    var tb := [' '] + (b + tc);
    WordRunsOfWord(c, []);
    assert c + [] == c;
    WordRunsSkip(' ', c);
    assert WordRuns(tc) == [c];
    WordRunsOfWord(b, tc);
    assert WordRuns(b + tc) == [b, c];
    WordRunsSkip(' ', b + tc);
    assert WordRuns(tb) == [b, c];
    WordRunsOfWord(a, tb);
    assert WordRuns(a + tb) == [a, b, c];
    SpacedJoin(a, b, c);
  }

  lemma QueryTokens()
    ensures QueryWords(Query) == {Newton, First, Law}
  {
    QueryLowering();
    Words();
    ThreeWords(Newton, First, Law);
    assert WordRuns(QueryLower) == [Newton, First, Law];
  }

  /** The first query word opens the phrase "newton's first law". */
  lemma NewtonToken(rest: string)
    ensures Newton in Tokens(Newton + "'s " + First + " " + Law + rest)
  {
    Words();
    var tail := "'s " + First + " " + Law + rest;
    WordIsToken("", Newton, tail);
    assert "" + Newton + tail == Newton + "'s " + First + " " + Law + rest;
  }

  lemma FirstToken(rest: string)
    ensures First in Tokens(Newton + "'s " + First + " " + Law + rest)
  {
    Words();
    var tail := " " + Law + rest;
    WordIsToken(Newton + "'s ", First, tail);
    assert Newton + "'s " + First + tail == Newton + "'s " + First + " " + Law + rest;
  }

  lemma LawToken(rest: string)
    requires rest == [] || !IsWordChar(rest[0])
    ensures Law in Tokens(Newton + "'s " + First + " " + Law + rest)
  {
    Words();
    WordIsToken(Newton + "'s " + First + " ", Law, rest);
  }

  /** Every query word occurs as a word of the first chunk. */
  lemma NewtonChunkHasQueryWords()
    ensures {Newton, First, Law} <= Tokens(NewtonLower)
  {
    NewtonToken(NewtonRest);
    FirstToken(NewtonRest);
    assert NewtonRest[0] == ' ';
    LawToken(NewtonRest);
  }

  lemma PrefixOfAppend(p: string, q: string, r: string)
    requires p <= q
    ensures p <= q + r
  {
    assert (q + r)[..|p|] == q[..|p|];
  }

  lemma StartsWithNewton()
    ensures Contains(NewtonText, "Newton")
  {
    var w := "Newton";
    PrefixOfAppend(w, w, "'s ");
    PrefixOfAppend(w, w + "'s ", First);
    PrefixOfAppend(w, w + "'s " + First, " ");
    PrefixOfAppend(w, w + "'s " + First + " ", Law);
    PrefixOfAppend(w, w + "'s " + First + " " + Law, NewtonRest);
    assert OccursAt(NewtonText, w, 0);
  }

  /** Searching the two scenario chunks for "Newton first law" ranks the Newton chunk first, with full score. */
  lemma NewtonRanksFirst()
    ensures var r := SearchResults(ScenarioChunks, Query, 3);
      r != [] && r[0].text == NewtonText && r[0].score == 1.0 && Contains(r[0].text, "Newton")
  {
    QueryTokens();
    NewtonChunkHasQueryWords();
    var chunks := ScenarioChunks;
    assert chunks[0].textLower == NewtonLower && chunks[0].text == NewtonText;
    FullMatchRanksFirst(chunks, Query, 3);
    StartsWithNewton();
  }
}
