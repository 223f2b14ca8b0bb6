/**
 * The lexical-overlap search of `search_relevant_content`: tokenise the
 * lower-cased query and every chunk, keep the chunks that share a word with
 * the query, score them with fixed bonuses and a cap, sort them by score
 * (stably, highest first) and keep the first `max_results`.
 */
module Retrieval {
  import opened Text
  import opened Tokenizer

  /** One entry of `self.chunks`. */
  datatype ChunkRecord = ChunkRecord(
    id: string, text: string, textLower: string, filename: string,
    docId: string, chunkIndex: int, length: nat, sentenceCount: nat)

  /** One search result: `text`, `filename`, `similarity_score`, `chunk_index`, `matching_words`. */
  datatype Hit = Hit(text: string, filename: string, score: real, chunkIndex: int, matchingWords: set<string>)

  const PhraseBonus: real := 0.3
  const SequenceBonus: real := 0.2

  /** The query's word set. */
  function QueryWords(query: string): set<string> {
    Tokens(Lower(query))
  }

  function Min(a: real, b: real): real {
    if a <= b then a else b
  }

  /** `min(base + phrase_bonus + sequence_bonus, 1.0)` for `common` shared words out of `queryCount`. */
  function Score(common: nat, queryCount: nat, phrase: bool): real
    requires queryCount > 0
  {
    Min(common as real / queryCount as real
        + (if phrase then PhraseBonus else 0.0)
        + (if common > 1 then SequenceBonus else 0.0), 1.0)
  }

  /** A positive share of the query words scores in (0, 1], and at least that share. */
  lemma ScoreInRange(common: nat, queryCount: nat, phrase: bool)
    requires 0 < common <= queryCount
    ensures 0.0 < Score(common, queryCount, phrase) <= 1.0
    ensures Score(common, queryCount, phrase) >= common as real / queryCount as real
    ensures common == queryCount ==> Score(common, queryCount, phrase) == 1.0
  {
    var base := common as real / queryCount as real;
    assert base > 0.0;
    assert base <= 1.0 by {
      assert common as real <= queryCount as real;
    }
    var extra := (if phrase then PhraseBonus else 0.0) + (if common > 1 then SequenceBonus else 0.0);
    assert extra >= 0.0;
    assert Score(common, queryCount, phrase) == Min(base + extra, 1.0);
    if common == queryCount {
      assert base == 1.0;
    }
  }

  /** The result for one chunk, if it shares a word with the query. */
  function ScoreChunk(c: ChunkRecord, queryLower: string, queryWords: set<string>): (r: Option<Hit>)
    requires queryWords != {}
    ensures r.Some? <==> queryWords * Tokens(c.textLower) != {}
    ensures r.Some? ==> (
      && r.value.text == c.text && r.value.filename == c.filename
      && r.value.chunkIndex == c.chunkIndex
      && r.value.matchingWords == queryWords * Tokens(c.textLower))
  {
    var common := queryWords * Tokens(c.textLower);
    if common == {} then None
    else
      Some(Hit(c.text, c.filename,
        Score(|common|, |queryWords|, Contains(c.textLower, queryLower)),
        c.chunkIndex, common))
  }

  /** `scored_chunks` after the loop over the given chunks, in chunk order. */
  function Scored(chunks: seq<ChunkRecord>, queryLower: string, queryWords: set<string>): seq<Hit>
    requires queryWords != {}
    decreases |chunks|
  {
    if chunks == [] then []
    else
      var front := Scored(chunks[..|chunks| - 1], queryLower, queryWords);
      match ScoreChunk(chunks[|chunks| - 1], queryLower, queryWords)
      case Some(h) => front + [h]
      case None => front
  }

  /** Every scored entry comes from a chunk that shares words with the query, and scores in (0, 1]. */
  lemma {:induction false} ScoredHits(chunks: seq<ChunkRecord>, queryLower: string, queryWords: set<string>)
    requires queryWords != {}
    ensures forall h :: h in Scored(chunks, queryLower, queryWords) ==>
      && h.matchingWords != {} && h.matchingWords <= queryWords
      && 0.0 < h.score <= 1.0
      && exists i :: 0 <= i < |chunks| && ScoreChunk(chunks[i], queryLower, queryWords) == Some(h)
    decreases |chunks|
  {
    if chunks != [] {
      var front := chunks[..|chunks| - 1];
      var c := chunks[|chunks| - 1];
      ScoredHits(front, queryLower, queryWords);
      forall h | h in Scored(chunks, queryLower, queryWords)
        ensures && h.matchingWords != {} && h.matchingWords <= queryWords
          && 0.0 < h.score <= 1.0
          && exists i :: 0 <= i < |chunks| && ScoreChunk(chunks[i], queryLower, queryWords) == Some(h)
      {
        if h in Scored(front, queryLower, queryWords) {
          var i :| 0 <= i < |front| && ScoreChunk(front[i], queryLower, queryWords) == Some(h);
          assert chunks[i] == front[i];
        } else {
          assert ScoreChunk(c, queryLower, queryWords) == Some(h);
          var common := queryWords * Tokens(c.textLower);
          assert common <= queryWords;
          SubsetSize(common, queryWords);
          ScoreInRange(|common|, |queryWords|, Contains(c.textLower, queryLower));
          assert chunks[|chunks| - 1] == c;
        }
      }
    }
  }

  /** Every chunk that shares a word with the query is scored. */
  lemma {:induction false} ScoredCovers(chunks: seq<ChunkRecord>, queryLower: string, queryWords: set<string>, i: nat)
    requires queryWords != {} && i < |chunks| && queryWords * Tokens(chunks[i].textLower) != {}
    ensures ScoreChunk(chunks[i], queryLower, queryWords).value in Scored(chunks, queryLower, queryWords)
    decreases |chunks|
  {
    var front := chunks[..|chunks| - 1];
    if i < |front| {
      assert chunks[i] == front[i];
      ScoredCovers(front, queryLower, queryWords, i);
    }
  }

  lemma SubsetSize(a: set<string>, b: set<string>)
    requires a <= b
    ensures |a| <= |b|
  {
    assert b == a + (b - a);
  }

  // ---------------------------------------------------------------
  // `list.sort(key=score, reverse=True)`: a stable sort, highest score first
  // ---------------------------------------------------------------

  /** Places `x` before the first entry that does not score higher. */
  function Insert(x: Hit, t: seq<Hit>): seq<Hit>
    decreases |t|
  {
    if t == [] then [x]
    else if t[0].score <= x.score then [x] + t
    else [t[0]] + Insert(x, t[1..])
  }

  /** The sorted list; an earlier entry is inserted in front of the later entries with its score. */
  function SortDesc(xs: seq<Hit>): seq<Hit>
    decreases |xs|
  {
    if xs == [] then [] else Insert(xs[0], SortDesc(xs[1..]))
  }

  predicate Descending(xs: seq<Hit>) {
    forall i, j :: 0 <= i < j < |xs| ==> xs[i].score >= xs[j].score
  }

  /** The entries with score `v`, in order. */
  function WithScore(xs: seq<Hit>, v: real): seq<Hit>
    decreases |xs|
  {
    if xs == [] then []
    else (if xs[0].score == v then [xs[0]] else []) + WithScore(xs[1..], v)
  }

  /** Inserting adds exactly `x`. */
  lemma {:induction false} InsertPerm(x: Hit, t: seq<Hit>)
    ensures multiset(Insert(x, t)) == multiset(t) + multiset{x}
    ensures |Insert(x, t)| == |t| + 1
    decreases |t|
  {
    if t != [] && t[0].score > x.score {
      InsertPerm(x, t[1..]);
      assert t == [t[0]] + t[1..];
    }
  }

  /** Inserting into a sorted list keeps it sorted. */
  lemma {:induction false} InsertSorted(x: Hit, t: seq<Hit>)
    requires Descending(t)
    ensures Descending(Insert(x, t))
    decreases |t|
  {
    if t != [] && t[0].score > x.score {
      var rest := t[1..];
      assert Descending(rest);
      InsertSorted(x, rest);
      InsertPerm(x, rest);
      var r := Insert(x, rest);
      forall j | 0 <= j < |r| ensures t[0].score >= r[j].score {
        assert r[j] in multiset(r);
        if r[j] != x {
          assert r[j] in multiset(rest);
          var k :| 0 <= k < |rest| && rest[k] == r[j];
          assert t[k + 1] == rest[k];
        }
      }
      var u := [t[0]] + r;
      assert forall j :: 0 < j < |u| ==> u[j] == r[j - 1];
    }
  }

  lemma WithScoreCons(y: Hit, t: seq<Hit>, v: real)
    ensures WithScore([y] + t, v) == (if y.score == v then [y] else []) + WithScore(t, v)
  {
    assert ([y] + t)[1..] == t;
  }

  /** Inserting keeps the entries of every score in their order, with `x` first among its own. */
  lemma {:induction false} InsertKeepsTies(x: Hit, t: seq<Hit>, v: real)
    ensures WithScore(Insert(x, t), v) == (if x.score == v then [x] else []) + WithScore(t, v)
    decreases |t|
  {
    if t == [] {
      WithScoreCons(x, [], v);
      assert [x] + [] == [x];
    } else if t[0].score <= x.score {
      WithScoreCons(x, t, v);
    } else {
      var rest := Insert(x, t[1..]);
      InsertKeepsTies(x, t[1..], v);
      WithScoreCons(t[0], rest, v);
      WithScoreCons(t[0], t[1..], v);
      assert [t[0]] + t[1..] == t;
      var mid := if t[0].score == v then [t[0]] else [];
      var head := if x.score == v then [x] else [];
      assert mid == [] || head == [];
      assert mid + (head + WithScore(t[1..], v)) == head + (mid + WithScore(t[1..], v));
    }
  }

  /**
   * The sort orders by non-increasing score, is a permutation, and keeps the
   * entries of each score in their original order: the sort is stable.
   */
  lemma {:induction false} SortDescCorrect(xs: seq<Hit>)
    ensures Descending(SortDesc(xs))
    ensures multiset(SortDesc(xs)) == multiset(xs)
    ensures |SortDesc(xs)| == |xs|
    ensures forall v :: WithScore(SortDesc(xs), v) == WithScore(xs, v)
    decreases |xs|
  {
    if xs != [] {
      SortDescCorrect(xs[1..]);
      InsertPerm(xs[0], SortDesc(xs[1..]));
      InsertSorted(xs[0], SortDesc(xs[1..]));
      assert xs == [xs[0]] + xs[1..];
      forall v ensures WithScore(SortDesc(xs), v) == WithScore(xs, v) {
        InsertKeepsTies(xs[0], SortDesc(xs[1..]), v);
      }
    }
  }

  /** An entry that no later entry outscores stays first. */
  lemma SortKeepsTopFirst(xs: seq<Hit>)
    requires xs != [] && forall j :: 0 < j < |xs| ==> xs[j].score <= xs[0].score
    ensures SortDesc(xs)[0] == xs[0]
  {
    var t := SortDesc(xs[1..]);
    SortDescCorrect(xs[1..]);
    if t != [] {
      assert t[0] in multiset(xs[1..]);
      var k :| 0 <= k < |xs[1..]| && xs[1..][k] == t[0];
      assert xs[k + 1] == t[0];
    }
  }

  // ---------------------------------------------------------------
  // Truncation and the whole search
  // ---------------------------------------------------------------

  /** Python's `xs[:k]`, where a negative `k` counts from the end. */
  function Take<T>(xs: seq<T>, k: int): (r: seq<T>)
    ensures r <= xs
    ensures k >= 0 ==> |r| == if k <= |xs| then k else |xs|
    ensures k < 0 ==> |r| == if |xs| + k >= 0 then |xs| + k else 0
  {
    if k >= 0 then (if k <= |xs| then xs[..k] else xs)
    else if |xs| + k >= 0 then xs[..|xs| + k]
    else []
  }

  /** `search_relevant_content(query, max_results)` over the chunk list `chunks`. */
  function SearchResults(chunks: seq<ChunkRecord>, query: string, maxResults: int): seq<Hit> {
    if chunks == [] then []
    else
      var queryLower := Lower(query);
      var queryWords := Tokens(queryLower);
      if queryWords == {} then []
      else Take(SortDesc(Scored(chunks, queryLower, queryWords)), maxResults)
  }

  /** An empty index or a query without word characters finds nothing. */
  lemma SearchNothing(chunks: seq<ChunkRecord>, query: string, maxResults: int)
    requires chunks == [] || QueryWords(query) == {}
    ensures SearchResults(chunks, query, maxResults) == []
  {
  }

  /**
   * The results are the first `max_results` of the matching chunks sorted
   * stably by score; each shares at least one word with the query, reports
   * exactly the shared words, and scores in (0, 1].
   */
  lemma SearchFacts(chunks: seq<ChunkRecord>, query: string, maxResults: int)
    requires chunks != [] && QueryWords(query) != {}
    ensures var all := SortDesc(Scored(chunks, Lower(query), QueryWords(query)));
      var r := SearchResults(chunks, query, maxResults);
      && r <= all && Descending(all)
      && multiset(all) == multiset(Scored(chunks, Lower(query), QueryWords(query)))
      && (forall v :: WithScore(all, v) == WithScore(Scored(chunks, Lower(query), QueryWords(query)), v))
      && (maxResults >= 0 ==> |r| == if maxResults <= |all| then maxResults else |all|)
    ensures forall h :: h in SearchResults(chunks, query, maxResults) ==>
      && h.matchingWords != {} && h.matchingWords <= QueryWords(query)
      && 0.0 < h.score <= 1.0
      && exists i :: 0 <= i < |chunks| && ScoreChunk(chunks[i], Lower(query), QueryWords(query)) == Some(h)
  {
    var ql, qw := Lower(query), QueryWords(query);
    var scored := Scored(chunks, ql, qw);
    SortDescCorrect(scored);
    ScoredHits(chunks, ql, qw);
    var all := SortDesc(scored);
    var r := SearchResults(chunks, query, maxResults);
    forall h | h in r ensures h in scored {
      assert h in all;
      assert h in multiset(all);
    }
  }

  /** When the first chunk scores, it heads the scored list. */
  lemma {:induction false} ScoredHead(chunks: seq<ChunkRecord>, queryLower: string, queryWords: set<string>)
    requires queryWords != {} && chunks != [] && queryWords * Tokens(chunks[0].textLower) != {}
    ensures var s := Scored(chunks, queryLower, queryWords);
      s != [] && s[0] == ScoreChunk(chunks[0], queryLower, queryWords).value
    decreases |chunks|
  {
    var front := chunks[..|chunks| - 1];
    if front != [] {
      assert front[0] == chunks[0];
      ScoredHead(front, queryLower, queryWords);
    } else {
      assert chunks[|chunks| - 1] == chunks[0];
    }
  }

  /**
   * A chunk holding every query word scores 1.0; when it is the first
   * chunk, it comes first in the results (the sort is stable).
   */
  lemma FullMatchRanksFirst(chunks: seq<ChunkRecord>, query: string, maxResults: int)
    requires chunks != [] && QueryWords(query) != {} && maxResults >= 1
    requires QueryWords(query) <= Tokens(chunks[0].textLower)
    ensures var r := SearchResults(chunks, query, maxResults);
      && r != [] && r[0].text == chunks[0].text && r[0].filename == chunks[0].filename
      && r[0].score == 1.0 && r[0].matchingWords == QueryWords(query)
  {
    var ql, qw := Lower(query), QueryWords(query);
    var c := chunks[0];
    assert qw * Tokens(c.textLower) == qw;
    var h := ScoreChunk(c, ql, qw).value;
    ScoreInRange(|qw|, |qw|, Contains(c.textLower, ql));
    assert h.score == 1.0;
    var scored := Scored(chunks, ql, qw);
    ScoredHead(chunks, ql, qw);
    ScoredHits(chunks, ql, qw);
    forall j | 0 < j < |scored| ensures scored[j].score <= scored[0].score {
      assert scored[j] in scored;
    }
    SortKeepsTopFirst(scored);
    SortDescCorrect(scored);
  }

  /** The results are in non-increasing score order. */
  lemma SearchSorted(chunks: seq<ChunkRecord>, query: string, maxResults: int)
    ensures Descending(SearchResults(chunks, query, maxResults))
  {
    if chunks != [] && QueryWords(query) != {} {
      SearchFacts(chunks, query, maxResults);
      var all := SortDesc(Scored(chunks, Lower(query), QueryWords(query)));
      var r := SearchResults(chunks, query, maxResults);
      assert forall i :: 0 <= i < |r| ==> r[i] == all[i];
    }
  }

  datatype Option<T> = None | Some(value: T)
}
