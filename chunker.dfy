/**
 * The chunker `create_chunks`: normalise, split into sentences, then pack
 * sentences greedily into chunks against a soft size, carrying the last two
 * sentences of a closed chunk into the next one.
 */
module Chunker {
  import opened Text
  import opened Normalizer
  import opened Sentences

  /** One chunk dictionary: `text`, `length` and `sentence_count`. */
  datatype Chunk = Chunk(text: string, length: nat, sentenceCount: nat)

  /**
   * The loop state of `create_chunks`: the chunks emitted so far,
   * `current_chunk` and `sentence_buffer`. `groups` records the sentence
   * buffer each emitted chunk was closed with; the loop itself never reads it.
   */
  datatype Packer = Packer(chunks: seq<Chunk>, groups: seq<seq<string>>, current: string, buffer: seq<string>)

  const Start := Packer([], [], "", [])

  /** The record written when a chunk is closed. */
  function Emit(current: string, buffer: seq<string>): Chunk {
    Chunk(Trim(current), |current|, |buffer|)
  }

  /** One iteration of the loop over sentences. */
  function Feed(p: Packer, sentence: string, chunkSize: int): Packer {
    if |p.current| + |sentence| + 1 > chunkSize && p.current != [] then
      var chunks := p.chunks + [Emit(p.current, p.buffer)];
      var groups := p.groups + [p.buffer];
      if |p.buffer| > 2 then
        var carried := p.buffer[|p.buffer| - 2..];
        Packer(chunks, groups, JoinWith(" ", carried) + " " + sentence, carried + [sentence])
      else
        Packer(chunks, groups, sentence, [sentence])
    else
      Packer(p.chunks, p.groups, if p.current != [] then p.current + " " + sentence else sentence, p.buffer + [sentence])
  }

  /** The loop state after the given sentences. */
  function FeedAll(sentences: seq<string>, chunkSize: int): Packer
    decreases |sentences|
  {
    if sentences == [] then Start
    else Feed(FeedAll(sentences[..|sentences| - 1], chunkSize), sentences[|sentences| - 1], chunkSize)
  }

  /** The step after the loop: emit the last chunk if its text is not blank. */
  function Finish(p: Packer): Packer {
    if Trim(p.current) != [] then
      Packer(p.chunks + [Emit(p.current, p.buffer)], p.groups + [p.buffer], "", [])
    else p
  }

  function Pack(sentences: seq<string>, chunkSize: int): Packer {
    Finish(FeedAll(sentences, chunkSize))
  }

  /** The sentences `create_chunks` packs. */
  function SentencesOf(text: string): seq<string> {
    SplitSentences(Preprocess(text))
  }

  /** The result of `create_chunks(text, chunk_size, overlap)`; `overlap` is never read. */
  function ChunkText(text: string, chunkSize: int): seq<Chunk> {
    Pack(SentencesOf(text), chunkSize).chunks
  }

  // ---------------------------------------------------------------
  // The view of a packing by sentence groups
  // ---------------------------------------------------------------

  /** The chunk record of a closed group of sentences. */
  function ChunkOf(g: seq<string>): Chunk {
    Chunk(JoinWith(" ", g), |JoinWith(" ", g)|, |g|)
  }

  /** How many sentences of group `k` were carried over from group `k - 1`. */
  function SeedLength(gs: seq<seq<string>>, k: nat): nat
    requires k < |gs|
  {
    if k > 0 && |gs[k - 1]| > 2 then 2 else 0
  }

  /** The sentences of all groups, each group without its carried-over seed. */
  function FreshSentences(gs: seq<seq<string>>): seq<string>
    decreases |gs|
  {
    if gs == [] then []
    else
      var k := |gs| - 1;
      var n := SeedLength(gs, k);
      FreshSentences(gs[..k]) + (if n <= |gs[k]| then gs[k][n..] else [])
  }

  predicate AllSentences(ss: seq<string>) {
    forall k :: 0 <= k < |ss| ==> IsSentence(ss[k])
  }

  /** Every chunk is the space-join of a non-empty sentence group. */
  predicate RecordsMatchGroups(chunks: seq<Chunk>, gs: seq<seq<string>>) {
    |chunks| == |gs| && forall k :: 0 <= k < |gs| ==> gs[k] != [] && chunks[k] == ChunkOf(gs[k])
  }

  /** A closed group with more than two sentences hands its last two to the next group. */
  predicate CarriesOverlap(gs: seq<seq<string>>) {
    forall k :: 0 < k < |gs| && |gs[k - 1]| > 2 ==>
      |gs[k]| >= 3 && gs[k][..2] == gs[k - 1][|gs[k - 1]| - 2..]
  }

  /** Past the sentence that opened a group, no prefix of the group is longer than `chunkSize`. */
  predicate AppendsFit(gs: seq<seq<string>>, chunkSize: int) {
    forall k, j :: 0 <= k < |gs| && SeedLength(gs, k) + 1 < j <= |gs[k]| ==>
      PrefixLength(gs[k], j) <= chunkSize
  }

  /** Length of the space-join of the first `j` sentences of a group. */
  function PrefixLength(g: seq<string>, j: nat): nat
    requires j <= |g|
  {
    |JoinWith(" ", g[..j])|
  }

  /** Each group but the last was closed because its first fresh successor did not fit. */
  predicate ClosedWhenFull(gs: seq<seq<string>>, chunkSize: int) {
    forall k :: 0 < k < |gs| ==>
      SeedLength(gs, k) < |gs[k]| &&
      |JoinWith(" ", gs[k - 1])| + |gs[k][SeedLength(gs, k)]| + 1 > chunkSize
  }

  /** Every member of every group is a sentence. */
  predicate GroupsOfSentences(gs: seq<seq<string>>) {
    forall k :: 0 <= k < |gs| ==> AllSentences(gs[k])
  }

  /** Every non-empty group extends past its seed. */
  predicate SeedsFit(gs: seq<seq<string>>) {
    forall k :: 0 <= k < |gs| && gs[k] != [] ==> SeedLength(gs, k) < |gs[k]|
  }

  /** The emitted groups followed by the open buffer. */
  function Open(p: Packer): seq<seq<string>> {
    p.groups + [p.buffer]
  }

  /** What holds of the loop state after the sentences `done`. */
  predicate Inv(p: Packer, done: seq<string>, chunkSize: int) {
    ShapeInv(p, done) && BoundsInv(p, chunkSize)
  }

  /** The records, the open buffer and the sentences covered so far. */
  predicate ShapeInv(p: Packer, done: seq<string>) {
    && RecordsMatchGroups(p.chunks, p.groups)
    && GroupsOfSentences(Open(p))
    && p.current == JoinWith(" ", p.buffer)
    && (p.buffer == [] <==> done == [])
    && (p.buffer == [] ==> p.groups == [])
    && SeedsFit(Open(p))
    && FreshSentences(Open(p)) == done
  }

  /** The overlap rule and the soft size bound. */
  predicate BoundsInv(p: Packer, chunkSize: int) {
    && CarriesOverlap(Open(p))
    && AppendsFit(Open(p), chunkSize)
    && ClosedWhenFull(Open(p), chunkSize)
  }

  // ---------------------------------------------------------------
  // Facts about the space-join of sentences
  // ---------------------------------------------------------------

  lemma JoinSnoc(g: seq<string>, x: string)
    requires g != []
    ensures JoinWith(" ", g + [x]) == JoinWith(" ", g) + " " + x
  {
    assert (g + [x])[..|g|] == g;
  }

  /** The join of sentences is empty exactly for no sentences, and has no blank at either end. */
  lemma {:induction false} JoinOfSentences(g: seq<string>)
    requires AllSentences(g)
    ensures JoinWith(" ", g) == [] <==> g == []
    ensures g != [] ==> JoinWith(" ", g)[0] == g[0][0] && Last(JoinWith(" ", g)) == Last(g[|g| - 1])
    ensures Trim(JoinWith(" ", g)) == JoinWith(" ", g)
    decreases |g|
  {
    if g == [] {
      TrimmedJoin([]);
    } else if |g| == 1 {
      SentenceEnds(g[0]);
      TrimmedJoin(g[0]);
    } else {
      SentencesPrefix(g);
      JoinOfSentences(g[..|g| - 1]);
      JoinStep(g);
    }
  }

  lemma JoinStep(g: seq<string>)
    requires |g| > 1 && IsSentence(g[0]) && IsSentence(g[|g| - 1])
    requires var j := JoinWith(" ", g[..|g| - 1]); j != [] && j[0] == g[0][0]
    ensures var j := JoinWith(" ", g); j != [] && j[0] == g[0][0] && Last(j) == Last(g[|g| - 1]) && Trim(j) == j
  {
    var h, x := g[..|g| - 1], g[|g| - 1];
    SentenceEnds(g[0]);
    SentenceEnds(x);
    assert h[0] == g[0];
    JoinOfMore(h, x);
    assert h + [x] == g;
  }

  lemma SentencesPrefix(g: seq<string>)
    requires AllSentences(g) && g != []
    ensures AllSentences(g[..|g| - 1]) && IsSentence(g[|g| - 1]) && IsSentence(g[0])
  {
    var h := g[..|g| - 1];
    forall k | 0 <= k < |h| ensures IsSentence(h[k]) {
      assert h[k] == g[k];
    }
  }

  /** One more sentence after a non-empty join keeps its first character and ends with the sentence. */
  lemma JoinOfMore(h: seq<string>, x: string)
    requires h != [] && h[0] != [] && JoinWith(" ", h) != [] && JoinWith(" ", h)[0] == h[0][0]
    requires !IsSpace(h[0][0]) && x != [] && !IsSpace(Last(x))
    ensures var j := JoinWith(" ", h + [x]);
      j != [] && j[0] == h[0][0] && Last(j) == Last(x) && Trim(j) == j
  {
    JoinSnoc(h, x);
    var jh := JoinWith(" ", h);
    var j := jh + " " + x;
    assert j[0] == jh[0];
    assert Last(j) == Last(x);
    TrimmedJoin(j);
  }

  /** A sentence is non-empty and starts and ends with a non-space. */
  lemma SentenceEnds(s: string)
    requires IsSentence(s)
    ensures s != [] && !IsSpace(s[0]) && !IsSpace(Last(s))
  {
    assert OnlyBlanks(s) && Trimmed(s);
  }

  lemma TrimmedJoin(j: string)
    requires j == [] || (!IsSpace(j[0]) && !IsSpace(Last(j)))
    ensures Trim(j) == j
  {
  }

  lemma SeedLengthOfPrefix(gs: seq<seq<string>>, m: nat, k: nat)
    requires k < m <= |gs|
    ensures SeedLength(gs[..m], k) == SeedLength(gs, k)
  {
  }

  lemma FreshSentencesSnoc(gs: seq<seq<string>>, g: seq<string>)
    ensures FreshSentences(gs + [g]) ==
      FreshSentences(gs) + (if SeedLength(gs + [g], |gs|) <= |g| then g[SeedLength(gs + [g], |gs|)..] else [])
  {
    assert (gs + [g])[..|gs|] == gs;
  }

  // ---------------------------------------------------------------
  // How the group view changes: a new group, or one more sentence in the last
  // ---------------------------------------------------------------

  /** The groups with sentence `s` appended to the last one. */
  function Extend(gs: seq<seq<string>>, s: string): seq<seq<string>>
    requires gs != []
  {
    gs[..|gs| - 1] + [gs[|gs| - 1] + [s]]
  }

  lemma SeedLengthAfterClose(gs: seq<seq<string>>, g: seq<string>, k: nat)
    requires k < |gs|
    ensures SeedLength(gs + [g], k) == SeedLength(gs, k)
  {
  }

  lemma SeedLengthAfterAppend(gs: seq<seq<string>>, s: string, k: nat)
    requires k < |gs|
    ensures SeedLength(Extend(gs, s), k) == SeedLength(gs, k)
  {
    var e := Extend(gs, s);
    if k > 0 {
      assert e[k - 1] == gs[k - 1];
    }
  }

  lemma OverlapAfterClose(gs: seq<seq<string>>, g: seq<string>)
    requires gs != [] && CarriesOverlap(gs)
    requires var b := gs[|gs| - 1]; |b| > 2 ==> |g| >= 3 && g[..2] == b[|b| - 2..]
    ensures CarriesOverlap(gs + [g])
  {
    var e := gs + [g];
    forall k | 0 < k < |e| && |e[k - 1]| > 2 ensures |e[k]| >= 3 && e[k][..2] == e[k - 1][|e[k - 1]| - 2..] {
      if k < |gs| {
        assert e[k] == gs[k] && e[k - 1] == gs[k - 1];
      }
    }
  }

  lemma OverlapAfterAppend(gs: seq<seq<string>>, s: string)
    requires gs != [] && CarriesOverlap(gs)
    ensures CarriesOverlap(Extend(gs, s))
  {
    var e := Extend(gs, s);
    var n := |gs| - 1;
    forall k | 0 < k < |e| && |e[k - 1]| > 2 ensures |e[k]| >= 3 && e[k][..2] == e[k - 1][|e[k - 1]| - 2..] {
      assert e[k - 1] == gs[k - 1];
      if k < n {
        assert e[k] == gs[k];
      } else {
        assert e[k] == gs[k] + [s];
        assert e[k][..2] == gs[k][..2];
      }
    }
  }

  lemma SeedsFitAfterClose(gs: seq<seq<string>>, g: seq<string>)
    requires SeedsFit(gs) && SeedLength(gs + [g], |gs|) < |g|
    ensures SeedsFit(gs + [g])
  {
    var e := gs + [g];
    forall k | 0 <= k < |e| && e[k] != [] ensures SeedLength(e, k) < |e[k]| {
      if k < |gs| {
        SeedLengthAfterClose(gs, g, k);
      }
    }
  }

  lemma SeedsFitAfterAppend(gs: seq<seq<string>>, s: string)
    requires gs != [] && SeedsFit(gs)
    requires SeedLength(gs, |gs| - 1) <= |gs[|gs| - 1]|
    ensures SeedsFit(Extend(gs, s))
  {
    var e := Extend(gs, s);
    forall k | 0 <= k < |e| && e[k] != [] ensures SeedLength(e, k) < |e[k]| {
      SeedLengthAfterAppend(gs, s, k);
      if k < |gs| - 1 {
        assert e[k] == gs[k];
      }
    }
  }

  lemma FreshAfterAppend(gs: seq<seq<string>>, s: string)
    requires gs != []
    requires SeedLength(gs, |gs| - 1) <= |gs[|gs| - 1]|
    ensures FreshSentences(Extend(gs, s)) == FreshSentences(gs) + [s]
  {
    var n := |gs| - 1;
    var e := Extend(gs, s);
    var b := gs[n];
    var front := gs[..n];
    assert gs == front + [b];
    assert e == front + [b + [s]];
    FreshSentencesSnoc(front, b);
    FreshSentencesSnoc(front, b + [s]);
    SeedLengthAfterAppend(gs, s, n);
    var m := SeedLength(gs, n);
    assert SeedLength(front + [b], n) == m;
    assert SeedLength(front + [b + [s]], n) == m;
    assert (b + [s])[m..] == b[m..] + [s];
  }

  lemma AppendsFitAfterClose(gs: seq<seq<string>>, g: seq<string>, chunkSize: int)
    requires AppendsFit(gs, chunkSize)
    requires SeedLength(gs + [g], |gs|) + 1 >= |g|
    ensures AppendsFit(gs + [g], chunkSize)
  {
    var e := gs + [g];
    forall k, j | 0 <= k < |e| && SeedLength(e, k) + 1 < j <= |e[k]| ensures PrefixLength(e[k], j) <= chunkSize {
      if k < |gs| {
        SeedLengthAfterClose(gs, g, k);
        assert e[k] == gs[k];
      }
    }
  }

  lemma AppendsFitAfterAppend(gs: seq<seq<string>>, s: string, chunkSize: int)
    requires gs != [] && AppendsFit(gs, chunkSize)
    requires var b := gs[|gs| - 1]; SeedLength(gs, |gs| - 1) < |b| ==> |JoinWith(" ", b + [s])| <= chunkSize
    ensures AppendsFit(Extend(gs, s), chunkSize)
  {
    var e := Extend(gs, s);
    var n := |gs| - 1;
    var b := gs[n];
    forall k, j | 0 <= k < |e| && SeedLength(e, k) + 1 < j <= |e[k]| ensures PrefixLength(e[k], j) <= chunkSize {
      SeedLengthAfterAppend(gs, s, k);
      if k < n {
        assert e[k] == gs[k];
      } else {
        assert e[k] == b + [s];
        if j <= |b| {
          assert (b + [s])[..j] == b[..j];
        } else {
          assert (b + [s])[..j] == b + [s];
        }
      }
    }
  }

  lemma ClosedAfterClose(gs: seq<seq<string>>, g: seq<string>, chunkSize: int)
    requires gs != [] && ClosedWhenFull(gs, chunkSize)
    requires SeedLength(gs + [g], |gs|) < |g|
    requires |JoinWith(" ", gs[|gs| - 1])| + |g[SeedLength(gs + [g], |gs|)]| + 1 > chunkSize
    ensures ClosedWhenFull(gs + [g], chunkSize)
  {
    var e := gs + [g];
    forall k | 0 < k < |e|
      ensures SeedLength(e, k) < |e[k]| && |JoinWith(" ", e[k - 1])| + |e[k][SeedLength(e, k)]| + 1 > chunkSize
    {
      if k < |gs| {
        SeedLengthAfterClose(gs, g, k);
        assert e[k] == gs[k] && e[k - 1] == gs[k - 1];
        assert SeedLength(gs, k) < |gs[k]| && |JoinWith(" ", gs[k - 1])| + |gs[k][SeedLength(gs, k)]| + 1 > chunkSize;
      } else {
        assert e[k] == g && e[k - 1] == gs[|gs| - 1];
      }
    }
  }

  lemma ClosedAfterAppend(gs: seq<seq<string>>, s: string, chunkSize: int)
    requires gs != [] && ClosedWhenFull(gs, chunkSize)
    ensures ClosedWhenFull(Extend(gs, s), chunkSize)
  {
    var e := Extend(gs, s);
    var n := |gs| - 1;
    forall k | 0 < k < |e|
      ensures SeedLength(e, k) < |e[k]| && |JoinWith(" ", e[k - 1])| + |e[k][SeedLength(e, k)]| + 1 > chunkSize
    {
      SeedLengthAfterAppend(gs, s, k);
      assert e[k - 1] == gs[k - 1];
      if k < n {
        assert e[k] == gs[k];
      } else {
        assert e[k] == gs[k] + [s];
        assert e[k][SeedLength(gs, k)] == gs[k][SeedLength(gs, k)];
      }
    }
  }

  // ---------------------------------------------------------------
  // The loop keeps the invariant
  // ---------------------------------------------------------------

  lemma InvStart(chunkSize: int)
    ensures Inv(Start, [], chunkSize)
  {
    var gs := Open(Start);
    assert gs == [[]];
    assert RecordsMatchGroups(Start.chunks, Start.groups);
    assert GroupsOfSentences(gs);
    assert Start.current == JoinWith(" ", Start.buffer);
    assert SeedsFit(gs);
    assert FreshSentences(gs) == [];
    assert ShapeInv(Start, []);
    assert CarriesOverlap(gs);
    assert AppendsFit(gs, chunkSize);
    assert ClosedWhenFull(gs, chunkSize);
  }

  /** What `Feed` does when the sentence does not fit a non-empty chunk. */
  lemma FeedCloses(p: Packer, s: string, chunkSize: int)
    requires |p.current| + |s| + 1 > chunkSize && p.current != []
    ensures Feed(p, s, chunkSize) == Packer(p.chunks + [Emit(p.current, p.buffer)], p.groups + [p.buffer], Feed(p, s, chunkSize).current, Feed(p, s, chunkSize).buffer)
    ensures var b := p.buffer; Feed(p, s, chunkSize).buffer == if |b| > 2 then b[|b| - 2..] + [s] else [s]
    ensures var b := p.buffer; Feed(p, s, chunkSize).current == if |b| > 2 then JoinWith(" ", b[|b| - 2..]) + " " + s else s
  {
  }

  /** What `Feed` does otherwise. */
  lemma FeedAppends(p: Packer, s: string, chunkSize: int)
    requires !(|p.current| + |s| + 1 > chunkSize && p.current != [])
    ensures Feed(p, s, chunkSize) == Packer(p.chunks, p.groups, if p.current != [] then p.current + " " + s else s, p.buffer + [s])
  {
  }

  lemma RecordsAfterClose(chunks: seq<Chunk>, gs: seq<seq<string>>, b: seq<string>)
    requires RecordsMatchGroups(chunks, gs) && b != []
    ensures RecordsMatchGroups(chunks + [ChunkOf(b)], gs + [b])
  {
    var c, e := chunks + [ChunkOf(b)], gs + [b];
    assert forall k :: 0 <= k < |gs| ==> c[k] == chunks[k] && e[k] == gs[k];
  }

  lemma SentencesAfterClose(gs: seq<seq<string>>, g: seq<string>)
    requires GroupsOfSentences(gs) && AllSentences(g)
    ensures GroupsOfSentences(gs + [g])
  {
    var e := gs + [g];
    assert forall k :: 0 <= k < |gs| ==> e[k] == gs[k];
  }

  lemma SentencesAfterAppend(gs: seq<seq<string>>, s: string)
    requires gs != [] && GroupsOfSentences(gs) && IsSentence(s)
    ensures GroupsOfSentences(Extend(gs, s))
  {
    var e := Extend(gs, s);
    var n := |gs| - 1;
    assert forall k :: 0 <= k < n ==> e[k] == gs[k];
    assert e[n] == gs[n] + [s];
    assert AllSentences(gs[n]);
    assert forall i :: 0 <= i < |e[n]| ==> IsSentence(e[n][i]) by {
      forall i | 0 <= i < |e[n]| ensures IsSentence(e[n][i]) {
        if i < |gs[n]| { assert e[n][i] == gs[n][i]; }
      }
    }
  }

  /** The closing sentence and the carried-over seed form a well-formed new group. */
  lemma SeedGroup(b: seq<string>, s: string, g: seq<string>)
    requires AllSentences(b) && b != [] && IsSentence(s)
    requires g == if |b| > 2 then b[|b| - 2..] + [s] else [s]
    ensures AllSentences(g) && g[|g| - 1] == s
    ensures |g| == if |b| > 2 then 3 else 1
    ensures |b| > 2 ==> g[..2] == b[|b| - 2..]
    ensures (if |b| > 2 then JoinWith(" ", b[|b| - 2..]) + " " + s else s) == JoinWith(" ", g)
  {
    if |b| > 2 {
      JoinSnoc(b[|b| - 2..], s);
      assert forall i :: 0 <= i < 2 ==> g[i] == b[|b| - 2 + i];
    }
  }

  /** A sentence that does not fit closes the current chunk and opens the next one with the overlap seed. */
  lemma CloseStep(p: Packer, done: seq<string>, s: string, chunkSize: int)
    requires Inv(p, done, chunkSize) && IsSentence(s)
    requires |p.current| + |s| + 1 > chunkSize && p.current != []
    ensures Inv(Feed(p, s, chunkSize), done + [s], chunkSize)
  {
    CloseShape(p, done, s, chunkSize);
    CloseBounds(p, done, s, chunkSize);
  }

  lemma CloseFacts(p: Packer, done: seq<string>, s: string, chunkSize: int)
    requires ShapeInv(p, done) && IsSentence(s)
    requires |p.current| + |s| + 1 > chunkSize && p.current != []
    ensures var q, b := Feed(p, s, chunkSize), p.buffer;
      && b != [] && AllSentences(b) && Open(q) == Open(p) + [q.buffer]
      && q.chunks == p.chunks + [ChunkOf(b)] && q.groups == p.groups + [b]
      && AllSentences(q.buffer) && q.buffer[|q.buffer| - 1] == s
      && SeedLength(Open(q), |Open(p)|) == |q.buffer| - 1
      && (|b| > 2 ==> |q.buffer| == 3 && q.buffer[..2] == b[|b| - 2..])
      && q.current == JoinWith(" ", q.buffer)
  {
    var q := Feed(p, s, chunkSize);
    FeedCloses(p, s, chunkSize);
    var gs := Open(p);
    var b := p.buffer;
    assert b == gs[|gs| - 1];
    assert AllSentences(b);
    JoinOfSentences(b);
    SeedGroup(b, s, q.buffer);
    assert Open(q) == gs + [q.buffer];
    assert Emit(p.current, b) == ChunkOf(b);
  }

  lemma CloseShape(p: Packer, done: seq<string>, s: string, chunkSize: int)
    requires ShapeInv(p, done) && IsSentence(s)
    requires |p.current| + |s| + 1 > chunkSize && p.current != []
    ensures ShapeInv(Feed(p, s, chunkSize), done + [s])
  {
    var q := Feed(p, s, chunkSize);
    CloseFacts(p, done, s, chunkSize);
    var gs, b, g := Open(p), p.buffer, q.buffer;
    RecordsAfterClose(p.chunks, p.groups, b);
    SentencesAfterClose(gs, g);
    SeedsFitAfterClose(gs, g);
    FreshSentencesSnoc(gs, g);
  }

  lemma CloseBounds(p: Packer, done: seq<string>, s: string, chunkSize: int)
    requires ShapeInv(p, done) && BoundsInv(p, chunkSize) && IsSentence(s)
    requires |p.current| + |s| + 1 > chunkSize && p.current != []
    ensures BoundsInv(Feed(p, s, chunkSize), chunkSize)
  {
    var q := Feed(p, s, chunkSize);
    CloseFacts(p, done, s, chunkSize);
    var gs, b, g := Open(p), p.buffer, q.buffer;
    assert b == gs[|gs| - 1];
    OverlapAfterClose(gs, g);
    AppendsFitAfterClose(gs, g, chunkSize);
    ClosedAfterClose(gs, g, chunkSize);
  }

  /** A sentence that fits, or that meets an empty chunk, is appended to the current chunk. */
  lemma AppendStep(p: Packer, done: seq<string>, s: string, chunkSize: int)
    requires Inv(p, done, chunkSize) && IsSentence(s)
    requires !(|p.current| + |s| + 1 > chunkSize && p.current != [])
    ensures Inv(Feed(p, s, chunkSize), done + [s], chunkSize)
  {
    AppendShape(p, done, s, chunkSize);
    AppendBounds(p, done, s, chunkSize);
  }

  lemma AppendFacts(p: Packer, s: string, chunkSize: int)
    requires p.current == JoinWith(" ", p.buffer) && AllSentences(p.buffer)
    requires p.buffer == [] ==> p.groups == []
    requires SeedsFit(Open(p))
    requires !(|p.current| + |s| + 1 > chunkSize && p.current != [])
    ensures var q, gs, b := Feed(p, s, chunkSize), Open(p), p.buffer;
      && gs != [] && b == gs[|gs| - 1] && Open(q) == Extend(gs, s)
      && q.chunks == p.chunks && q.groups == p.groups
      && q.current == JoinWith(" ", b + [s])
      && SeedLength(gs, |gs| - 1) <= |b|
      && (SeedLength(gs, |gs| - 1) < |b| ==> |JoinWith(" ", b + [s])| <= chunkSize)
  {
    var q := Feed(p, s, chunkSize);
    FeedAppends(p, s, chunkSize);
    var gs := Open(p);
    var b := p.buffer;
    var n := |gs| - 1;
    assert b == gs[n];
    JoinOfSentences(b);
    assert Open(q) == Extend(gs, s);
    if b != [] {
      JoinSnoc(b, s);
      assert q.current == p.current + " " + s;
      assert gs[n] != [];
    } else {
      assert p.current == [] && n == 0;
      assert q.current == s;
      assert |b + [s]| == 1 && (b + [s])[0] == s;
    }
  }

  lemma BufferOfSentences(p: Packer)
    requires GroupsOfSentences(Open(p))
    ensures AllSentences(p.buffer)
  {
    assert Open(p)[|Open(p)| - 1] == p.buffer;
  }

  lemma AppendShape(p: Packer, done: seq<string>, s: string, chunkSize: int)
    requires ShapeInv(p, done) && IsSentence(s)
    requires !(|p.current| + |s| + 1 > chunkSize && p.current != [])
    ensures ShapeInv(Feed(p, s, chunkSize), done + [s])
  {
    BufferOfSentences(p);
    AppendFacts(p, s, chunkSize);
    var gs := Open(p);
    SentencesAfterAppend(gs, s);
    SeedsFitAfterAppend(gs, s);
    FreshAfterAppend(gs, s);
  }

  lemma AppendBounds(p: Packer, done: seq<string>, s: string, chunkSize: int)
    requires ShapeInv(p, done) && BoundsInv(p, chunkSize) && IsSentence(s)
    requires !(|p.current| + |s| + 1 > chunkSize && p.current != [])
    ensures BoundsInv(Feed(p, s, chunkSize), chunkSize)
  {
    BufferOfSentences(p);
    AppendFacts(p, s, chunkSize);
    var gs := Open(p);
    OverlapAfterAppend(gs, s);
    AppendsFitAfterAppend(gs, s, chunkSize);
    ClosedAfterAppend(gs, s, chunkSize);
  }

  lemma FeedStep(p: Packer, done: seq<string>, s: string, chunkSize: int)
    requires Inv(p, done, chunkSize) && IsSentence(s)
    ensures Inv(Feed(p, s, chunkSize), done + [s], chunkSize)
  {
    if |p.current| + |s| + 1 > chunkSize && p.current != [] {
      CloseStep(p, done, s, chunkSize);
    } else {
      AppendStep(p, done, s, chunkSize);
    }
  }

  lemma {:induction false} FeedAllInv(ss: seq<string>, chunkSize: int)
    requires AllSentences(ss)
    ensures Inv(FeedAll(ss, chunkSize), ss, chunkSize)
    decreases |ss|
  {
    if ss == [] {
      InvStart(chunkSize);
    } else {
      var front, last := ss[..|ss| - 1], ss[|ss| - 1];
      assert ss == front + [last];
      assert AllSentences(front);
      FeedAllInv(front, chunkSize);
      assert FeedAll(ss, chunkSize) == Feed(FeedAll(front, chunkSize), last, chunkSize);
      FeedStep(FeedAll(front, chunkSize), front, last, chunkSize);
    }
  }

  // ---------------------------------------------------------------
  // The finished packing
  // ---------------------------------------------------------------

  /** What holds of the chunk list and its sentence groups once every sentence is packed. */
  predicate WellPacked(chunks: seq<Chunk>, gs: seq<seq<string>>, ss: seq<string>, chunkSize: int) {
    && RecordsMatchGroups(chunks, gs)
    && GroupsOfSentences(gs)
    && SeedsFit(gs)
    && FreshSentences(gs) == ss
    && CarriesOverlap(gs)
    && AppendsFit(gs, chunkSize)
    && ClosedWhenFull(gs, chunkSize)
  }

  lemma FinishFacts(p: Packer, ss: seq<string>, chunkSize: int)
    requires Inv(p, ss, chunkSize)
    ensures var r := Finish(p); WellPacked(r.chunks, r.groups, ss, chunkSize) && (r.chunks == [] <==> ss == [])
  {
    BufferOfSentences(p);
    JoinOfSentences(p.buffer);
    var r := Finish(p);
    if p.buffer == [] {
      assert r == p;
    } else {
      assert r.groups == Open(p);
      assert Emit(p.current, p.buffer) == ChunkOf(p.buffer);
      RecordsAfterClose(p.chunks, p.groups, p.buffer);
    }
  }

  /**
   * Packing sentences yields one chunk per sentence group; the groups, each
   * without its carried-over seed, are the sentences in order; the overlap
   * rule and the soft size bound hold; no chunks exactly for no sentences.
   */
  lemma PackFacts(ss: seq<string>, chunkSize: int)
    requires AllSentences(ss)
    ensures var r := Pack(ss, chunkSize);
      WellPacked(r.chunks, r.groups, ss, chunkSize) && (r.chunks == [] <==> ss == [])
  {
    FeedAllInv(ss, chunkSize);
    FinishFacts(FeedAll(ss, chunkSize), ss, chunkSize);
  }

  /** Each chunk of a packing has non-blank, trimmed text of its recorded length and at least one sentence. */
  lemma ChunksAreNonEmpty(chunks: seq<Chunk>, gs: seq<seq<string>>)
    requires RecordsMatchGroups(chunks, gs) && GroupsOfSentences(gs)
    ensures forall k :: 0 <= k < |chunks| ==>
      && chunks[k].text != [] && Trim(chunks[k].text) == chunks[k].text
      && chunks[k].length == |chunks[k].text| && chunks[k].sentenceCount >= 1
  {
    forall k | 0 <= k < |chunks|
      ensures chunks[k].text != [] && Trim(chunks[k].text) == chunks[k].text
      ensures chunks[k].length == |chunks[k].text| && chunks[k].sentenceCount >= 1
    {
      assert AllSentences(gs[k]);
      JoinOfSentences(gs[k]);
    }
  }

  /** Normalised non-empty text splits into sentences that join back to it; blank text into one empty piece. */
  lemma SentencesOfText(text: string)
    ensures Preprocess(text) != [] ==>
      SentencesOf(text) != [] && AllSentences(SentencesOf(text)) && JoinWith(" ", SentencesOf(text)) == Preprocess(text)
    ensures Preprocess(text) == [] ==> SentencesOf(text) == [""]
  {
    if Preprocess(text) != [] {
      SplitCleanText(Preprocess(text));
    }
  }

  /**
   * `create_chunks` yields no chunk exactly when the cleaned text is empty;
   * otherwise its chunks are well packed over the sentences of the cleaned
   * text, which join back to that text.
   */
  lemma ChunkTextFacts(text: string, chunkSize: int)
    ensures ChunkText(text, chunkSize) == [] <==> Preprocess(text) == []
    ensures Preprocess(text) != [] ==>
      var r := Pack(SentencesOf(text), chunkSize);
      && WellPacked(r.chunks, r.groups, SentencesOf(text), chunkSize)
      && JoinWith(" ", SentencesOf(text)) == Preprocess(text)
    ensures NonBlankChunks(ChunkText(text, chunkSize))
  {
    if Preprocess(text) != [] {
      ChunksOfText(text, chunkSize);
    } else {
      ChunksOfBlank(text, chunkSize);
    }
  }

  lemma ChunksOfText(text: string, chunkSize: int)
    requires Preprocess(text) != []
    ensures var r := Pack(SentencesOf(text), chunkSize);
      && ChunkText(text, chunkSize) == r.chunks && r.chunks != [] && NonBlankChunks(r.chunks)
      && WellPacked(r.chunks, r.groups, SentencesOf(text), chunkSize)
      && JoinWith(" ", SentencesOf(text)) == Preprocess(text)
  {
    SentencesOfText(text);
    PackOfSentences(SentencesOf(text), chunkSize);
  }

  lemma ChunksOfBlank(text: string, chunkSize: int)
    requires Preprocess(text) == []
    ensures ChunkText(text, chunkSize) == []
  {
    SentencesOfText(text);
    PackOfBlank(chunkSize);
  }

  /** Every chunk has text and at least one sentence. */
  predicate NonBlankChunks(cs: seq<Chunk>) {
    forall k :: 0 <= k < |cs| ==> cs[k].text != [] && cs[k].sentenceCount >= 1
  }

  /** Sentences pack into non-empty chunks with at least one sentence each. */
  lemma PackOfSentences(ss: seq<string>, chunkSize: int)
    requires AllSentences(ss) && ss != []
    ensures var r := Pack(ss, chunkSize);
      WellPacked(r.chunks, r.groups, ss, chunkSize) && r.chunks != [] && NonBlankChunks(r.chunks)
  {
    PackFacts(ss, chunkSize);
    var r := Pack(ss, chunkSize);
    ChunksAreNonEmpty(r.chunks, r.groups);
  }

  /** The single empty piece of blank text packs into no chunk. */
  lemma PackOfBlank(chunkSize: int)
    ensures Pack([""], chunkSize).chunks == []
  {
    assert [""][..0] == [];
    assert FeedAll([""], chunkSize) == Feed(Start, "", chunkSize);
  }

  // ---------------------------------------------------------------
  // When the text is split into more than one chunk
  // ---------------------------------------------------------------

  /** Joining a non-empty prefix of a sequence never gives a longer string. */
  lemma {:induction false} JoinPrefixLength(t: seq<string>, ss: seq<string>)
    requires t != [] && t <= ss
    ensures |JoinWith(" ", t)| <= |JoinWith(" ", ss)|
    decreases |ss|
  {
    if |t| < |ss| {
      var front := ss[..|ss| - 1];
      assert t <= front;
      JoinPrefixLength(t, front);
      JoinSnoc(front, ss[|ss| - 1]);
      assert ss == front + [ss[|ss| - 1]];
    } else {
      assert t == ss;
    }
  }

  /** With two groups or more, the first group and the first fresh sentence of the second start the sentences. */
  lemma {:induction false} TwoGroupsPrefix(gs: seq<seq<string>>)
    requires |gs| >= 2 && SeedsFit(gs) && gs[1] != []
    ensures gs[0] + [gs[1][SeedLength(gs, 1)]] <= FreshSentences(gs)
    decreases |gs|
  {
    var k := |gs| - 1;
    var front := gs[..k];
    var n := SeedLength(gs, 1);
    assert n < |gs[1]|;
    var t := gs[0] + [gs[1][n]];
    if k == 1 {
      var one := gs[..1];
      assert one[0] == gs[0] && |one[..0]| == 0;
      assert FreshSentences(one) == gs[0];
      var f := gs[0] + gs[1][n..];
      assert FreshSentences(gs) == f;
      assert t == f[..|gs[0]| + 1];
    } else {
      assert front[0] == gs[0] && front[1] == gs[1];
      assert SeedsFit(front) by {
        forall j | 0 <= j < |front| && front[j] != [] ensures SeedLength(front, j) < |front[j]| {
          assert front[j] == gs[j];
          SeedLengthOfPrefix(gs, k, j);
        }
      }
      SeedLengthOfPrefix(gs, k, 1);
      TwoGroupsPrefix(front);
      PrefixTrans(t, FreshSentences(front), FreshSentences(gs));
    }
  }

  lemma PrefixTrans(a: seq<string>, b: seq<string>, c: seq<string>)
    requires a <= b && b <= c
    ensures a <= c
  {
    assert c[..|b|][..|a|] == c[..|a|];
  }

  /**
   * Non-empty sentences pack into exactly one chunk if and only if there is
   * one sentence or their space-join fits `chunkSize`; that chunk is then the
   * join of all of them.
   */
  lemma OneChunkIffFits(ss: seq<string>, chunkSize: int)
    requires AllSentences(ss) && ss != []
    ensures |Pack(ss, chunkSize).chunks| == 1 <==> |ss| == 1 || |JoinWith(" ", ss)| <= chunkSize
    ensures |Pack(ss, chunkSize).chunks| == 1 ==> Pack(ss, chunkSize).chunks[0].text == JoinWith(" ", ss)
  {
    PackFacts(ss, chunkSize);
    var r := Pack(ss, chunkSize);
    if |r.groups| == 1 {
      OneGroup(r.chunks, r.groups, ss, chunkSize);
    } else {
      ManyGroups(r.chunks, r.groups, ss, chunkSize);
    }
  }

  lemma OneGroup(chunks: seq<Chunk>, gs: seq<seq<string>>, ss: seq<string>, chunkSize: int)
    requires WellPacked(chunks, gs, ss, chunkSize) && |gs| == 1
    ensures gs[0] == ss && chunks[0].text == JoinWith(" ", ss)
    ensures |ss| > 1 ==> |JoinWith(" ", ss)| <= chunkSize
  {
    assert SeedLength(gs, 0) == 0;
    assert |gs[..0]| == 0;
    assert gs[0][0..] == gs[0];
    assert FreshSentences(gs) == gs[0];
    if |ss| > 1 {
      assert PrefixLength(gs[0], |gs[0]|) <= chunkSize;
      assert gs[0][..|gs[0]|] == gs[0];
    }
  }

  lemma ManyGroups(chunks: seq<Chunk>, gs: seq<seq<string>>, ss: seq<string>, chunkSize: int)
    requires WellPacked(chunks, gs, ss, chunkSize) && |gs| >= 2
    ensures |ss| >= 2 && |JoinWith(" ", ss)| > chunkSize
  {
    assert gs[0] != [] && gs[1] != [];
    TwoGroupsPrefix(gs);
    var x := gs[1][SeedLength(gs, 1)];
    var t := gs[0] + [x];
    assert |JoinWith(" ", gs[0])| + |x| + 1 > chunkSize;
    JoinSnoc(gs[0], x);
    JoinPrefixLength(t, ss);
  }

  // ---------------------------------------------------------------
  // The loop of `create_chunks`
  // ---------------------------------------------------------------

  /** `create_chunks(text, chunk_size, overlap)`; `overlap` is never read. */
  method CreateChunks(text: string, chunkSize: int, overlap: int) returns (chunks: seq<Chunk>)
    ensures chunks == ChunkText(text, chunkSize)
  {
    var processed := Preprocess(text);
    var sentences := SplitSentences(processed);
    chunks := PackSentences(sentences, chunkSize);
  }

  lemma FeedAllSnoc(sentences: seq<string>, i: nat, chunkSize: int)
    requires i < |sentences|
    ensures FeedAll(sentences[..i + 1], chunkSize) == Feed(FeedAll(sentences[..i], chunkSize), sentences[i], chunkSize)
  {
    assert sentences[..i + 1][..i] == sentences[..i];
  }

  /** The loop of `create_chunks` over the sentences, and the final chunk. */
  method PackSentences(sentences: seq<string>, chunkSize: int) returns (chunks: seq<Chunk>)
    ensures chunks == Pack(sentences, chunkSize).chunks
  {
    chunks := [];
    var current: string := "";
    var buffer: seq<string> := [];
    ghost var groups: seq<seq<string>> := [];
    for i := 0 to |sentences|
      invariant FeedAll(sentences[..i], chunkSize) == Packer(chunks, groups, current, buffer)
    {
      var sentence := sentences[i];
      FeedAllSnoc(sentences, i, chunkSize);
      var projectedLength := |current| + |sentence| + 1;
      if projectedLength > chunkSize && current != [] {
        chunks := chunks + [Chunk(Trim(current), |current|, |buffer|)];
        groups := groups + [buffer];
        if |buffer| > 2 {
          var overlapSentences := buffer[|buffer| - 2..];
          current := JoinWith(" ", overlapSentences) + " " + sentence;
          buffer := overlapSentences + [sentence];
        } else {
          current := sentence;
          buffer := [sentence];
        }
      } else {
        current := if current != [] then current + " " + sentence else sentence;
        buffer := buffer + [sentence];
      }
    }
    assert sentences[..|sentences|] == sentences;
    if Trim(current) != [] {
      chunks := chunks + [Chunk(Trim(current), |current|, |buffer|)];
    }
  }
}
