/**
 * The in-memory knowledge base of `RAGEngine`: the list `self.chunks` of
 * chunk records and the insertion-ordered dictionary `self.documents` of
 * document metadata, with `add_document` (given the extracted text),
 * `get_document_stats`, `search_relevant_content`, `generate_answer` and
 * `generate_study_quiz`.
 */
module Engine {
  import opened Text
  import opened Chunker
  import opened Retrieval
  import opened Composer
  import opened Tokenizer

  /** The metadata stored for a document: `filename`, `chunks`, `total_chars`, `preview`. */
  datatype DocInfo = DocInfo(filename: string, chunks: nat, totalChars: nat, preview: string)

  /** One key and value of `self.documents`; the sequence of entries keeps insertion order. */
  datatype DocEntry = DocEntry(docId: string, info: DocInfo)

  /** The dictionary `get_document_stats` returns. */
  datatype Stats = Stats(totalDocuments: nat, totalChunks: nat, documents: seq<DocInfo>)

  const DefaultChunkSize := 1000
  const DefaultOverlap := 100
  const PreviewLength := 300

  /** `text[:300] + "..."` when the text is longer than 300 characters, else the text. */
  function Preview(text: string): (r: string)
    ensures |r| <= PreviewLength + 3
    ensures |text| <= PreviewLength ==> r == text
    ensures |text| > PreviewLength ==> text[..PreviewLength] <= r && r[PreviewLength..] == "..."
  {
    if |text| > PreviewLength then text[..PreviewLength] + "..." else text
  }

  /** `f"{doc_id}_{i}"`. */
  function RecordId(docId: string, i: nat): string {
    docId + "_" + NatToString(i)
  }

  /** Distinct documents or positions give distinct record ids. */
  lemma RecordIdInjective(d1: string, i1: nat, d2: string, i2: nat)
    requires RecordId(d1, i1) == RecordId(d2, i2)
    ensures d1 == d2 && i1 == i2
  {
    var s1, s2 := NatToString(i1), NatToString(i2);
    var x := RecordId(d1, i1);
    assert x == d1 + "_" + s1 == d2 + "_" + s2;
    if |s1| < |s2| {
      SeparatorAt(d1, s1);
      SuffixAt(d2, s2, |d1| - |d2| - 1);
      assert false;
    } else if |s2| < |s1| {
      SeparatorAt(d2, s2);
      SuffixAt(d1, s1, |d2| - |d1| - 1);
      assert false;
    } else {
      assert s1 == x[|x| - |s1|..] == s2;
      assert d1 == x[..|d1|] == d2;
      ParseNatToString(i1);
      ParseNatToString(i2);
    }
  }

  lemma SeparatorAt(d: string, s: string)
    ensures (d + "_" + s)[|d|] == '_'
  {
  }

  lemma SuffixAt(d: string, s: string, k: int)
    ensures 0 <= k < |s| ==> (d + "_" + s)[|d| + 1 + k] == s[k]
  {
  }

  /** The record `add_document` stores for chunk `c` at position `i` of document `docId`. */
  function RecordOf(docId: string, filename: string, c: Chunk, i: nat): ChunkRecord {
    ChunkRecord(RecordId(docId, i), c.text, Lower(c.text), filename, docId, i, c.length, c.sentenceCount)
  }

  /** The records of a document's chunks, numbered from 0. */
  function RecordsOf(docId: string, filename: string, cs: seq<Chunk>): seq<ChunkRecord>
    decreases |cs|
  {
    if cs == [] then []
    else RecordsOf(docId, filename, cs[..|cs| - 1]) + [RecordOf(docId, filename, cs[|cs| - 1], |cs| - 1)]
  }

  /** A block of records of one document: indices 0, 1, ..., ids `docId_i`, lower-cased text. */
  predicate NumberedBlock(b: seq<ChunkRecord>, docId: string, filename: string) {
    forall i :: 0 <= i < |b| ==>
      && b[i].docId == docId && b[i].filename == filename
      && b[i].chunkIndex == i && b[i].id == RecordId(docId, i)
      && b[i].textLower == Lower(b[i].text)
  }

  /** The records of `n` chunks are `n` numbered records carrying the chunks' fields. */
  lemma RecordsOfFacts(docId: string, filename: string, cs: seq<Chunk>)
    ensures |RecordsOf(docId, filename, cs)| == |cs|
    ensures NumberedBlock(RecordsOf(docId, filename, cs), docId, filename)
    ensures forall i :: 0 <= i < |cs| ==>
      && RecordsOf(docId, filename, cs)[i].text == cs[i].text
      && RecordsOf(docId, filename, cs)[i].length == cs[i].length
      && RecordsOf(docId, filename, cs)[i].sentenceCount == cs[i].sentenceCount
  {
    RecordsLength(docId, filename, cs);
    var r := RecordsOf(docId, filename, cs);
    forall i | 0 <= i < |cs|
      ensures r[i].docId == docId && r[i].filename == filename
      ensures r[i].chunkIndex == i && r[i].id == RecordId(docId, i)
      ensures r[i].textLower == Lower(r[i].text)
      ensures r[i].text == cs[i].text && r[i].length == cs[i].length && r[i].sentenceCount == cs[i].sentenceCount
    {
      RecordAt(docId, filename, cs, i);
    }
  }

  lemma {:induction false} RecordsLength(docId: string, filename: string, cs: seq<Chunk>)
    ensures |RecordsOf(docId, filename, cs)| == |cs|
    decreases |cs|
  {
    if cs != [] {
      RecordsLength(docId, filename, cs[..|cs| - 1]);
    }
  }

  /** Record `i` is the record of chunk `i` at position `i`. */
  lemma {:induction false} RecordAt(docId: string, filename: string, cs: seq<Chunk>, i: nat)
    requires i < |cs|
    ensures i < |RecordsOf(docId, filename, cs)|
    ensures RecordsOf(docId, filename, cs)[i] == RecordOf(docId, filename, cs[i], i)
    decreases |cs|
  {
    var front := cs[..|cs| - 1];
    RecordsLength(docId, filename, front);
    if i < |front| {
      RecordAt(docId, filename, front, i);
      assert front[i] == cs[i];
    }
  }

  // ---------------------------------------------------------------
  // The layout of the knowledge base
  // ---------------------------------------------------------------

  /** No key occurs twice: the entries form a dictionary. */
  predicate KeysDistinct(docs: seq<DocEntry>) {
    forall i, j :: 0 <= i < j < |docs| ==> docs[i].docId != docs[j].docId
  }

  function DocIds(docs: seq<DocEntry>): set<string> {
    set i | 0 <= i < |docs| :: docs[i].docId
  }

  /** The chunk list is the documents' numbered blocks, in the order the documents were added. */
  predicate Layout(docs: seq<DocEntry>, chunks: seq<ChunkRecord>)
    decreases |docs|
  {
    if docs == [] then chunks == []
    else
      var n := |docs| - 1;
      var k := docs[n].info.chunks;
      && k <= |chunks|
      && Layout(docs[..n], chunks[..|chunks| - k])
      && NumberedBlock(chunks[|chunks| - k..], docs[n].docId, docs[n].info.filename)
  }

  /** The sum of the documents' chunk counts. */
  function TotalChunks(docs: seq<DocEntry>): nat
    decreases |docs|
  {
    if docs == [] then 0 else TotalChunks(docs[..|docs| - 1]) + docs[|docs| - 1].info.chunks
  }

  /** The chunk list holds as many records as the documents' `chunks` entries add up to. */
  lemma {:induction false} LayoutCounts(docs: seq<DocEntry>, chunks: seq<ChunkRecord>)
    requires Layout(docs, chunks)
    ensures |chunks| == TotalChunks(docs)
    decreases |docs|
  {
    if docs != [] {
      var n := |docs| - 1;
      LayoutCounts(docs[..n], chunks[..|chunks| - docs[n].info.chunks]);
    }
  }

  /** Every record belongs to a stored document and carries the id of its document and index. */
  lemma {:induction false} LayoutRecords(docs: seq<DocEntry>, chunks: seq<ChunkRecord>)
    requires Layout(docs, chunks)
    ensures forall i :: 0 <= i < |chunks| ==>
      chunks[i].docId in DocIds(docs) && chunks[i].chunkIndex >= 0 &&
      chunks[i].id == RecordId(chunks[i].docId, chunks[i].chunkIndex)
    decreases |docs|
  {
    if docs != [] {
      var n := |docs| - 1;
      var m := |chunks| - docs[n].info.chunks;
      var front := chunks[..m];
      LayoutRecords(docs[..n], front);
      forall i | 0 <= i < |chunks|
        ensures chunks[i].docId in DocIds(docs) && chunks[i].chunkIndex >= 0
        ensures chunks[i].id == RecordId(chunks[i].docId, chunks[i].chunkIndex)
      {
        if i < m {
          assert chunks[i] == front[i];
          var j :| 0 <= j < n && docs[..n][j].docId == chunks[i].docId;
          assert docs[j] == docs[..n][j];
        } else {
          assert chunks[i] == chunks[m..][i - m];
        }
      }
    }
  }

  /** In a well-laid-out knowledge base no two records share an id. */
  lemma {:induction false} IdsDistinct(docs: seq<DocEntry>, chunks: seq<ChunkRecord>)
    requires KeysDistinct(docs) && Layout(docs, chunks)
    ensures forall i, j :: 0 <= i < j < |chunks| ==> chunks[i].id != chunks[j].id
    decreases |docs|
  {
    if docs != [] {
      var n := |docs| - 1;
      var m := |chunks| - docs[n].info.chunks;
      var front, block := chunks[..m], chunks[m..];
      var d := docs[n].docId;
      assert KeysDistinct(docs[..n]);
      IdsDistinct(docs[..n], front);
      LayoutRecords(docs[..n], front);
      forall i, j | 0 <= i < j < |chunks| ensures chunks[i].id != chunks[j].id {
        if j < m {
          assert chunks[i] == front[i] && chunks[j] == front[j];
        } else if i < m {
          assert chunks[i] == front[i] && chunks[j] == block[j - m];
          var k :| 0 <= k < n && docs[..n][k].docId == chunks[i].docId;
          assert docs[k] == docs[..n][k];
          if chunks[i].id == chunks[j].id {
            RecordIdInjective(chunks[i].docId, chunks[i].chunkIndex, d, j - m);
          }
        } else {
          assert chunks[i] == block[i - m] && chunks[j] == block[j - m];
          if chunks[i].id == chunks[j].id {
            RecordIdInjective(d, i - m, d, j - m);
          }
        }
      }
    }
  }

  // ---------------------------------------------------------------
  // Statistics
  // ---------------------------------------------------------------

  /** `get_document_stats()` for the given entries and chunk list. */
  function StatsOf(docs: seq<DocEntry>, chunks: seq<ChunkRecord>): Stats {
    Stats(|DocIds(docs)|, |chunks|, seq(|docs|, i requires 0 <= i < |docs| => docs[i].info))
  }

  lemma {:induction false} DistinctKeysCount(docs: seq<DocEntry>)
    requires KeysDistinct(docs)
    ensures |DocIds(docs)| == |docs|
    decreases |docs|
  {
    if docs != [] {
      var n := |docs| - 1;
      assert KeysDistinct(docs[..n]);
      DistinctKeysCount(docs[..n]);
      DocIdsSnoc(docs[..n], docs[n]);
      assert docs[..n] + [docs[n]] == docs;
      assert docs[n].docId !in DocIds(docs[..n]);
    }
  }

  lemma DocIdsSnoc(docs: seq<DocEntry>, e: DocEntry)
    ensures DocIds(docs + [e]) == DocIds(docs) + {e.docId}
  {
    var all := docs + [e];
    assert forall i :: 0 <= i < |docs| ==> all[i] == docs[i];
    assert all[|docs|] == e;
  }

  /**
   * The reported totals of a well-formed knowledge base are the number of
   * documents and the sum of their chunk counts, and the documents are
   * listed in insertion order.
   */
  lemma ValidStats(docs: seq<DocEntry>, chunks: seq<ChunkRecord>)
    requires KeysDistinct(docs) && Layout(docs, chunks)
    ensures StatsOf(docs, chunks).totalDocuments == |docs|
    ensures StatsOf(docs, chunks).totalChunks == TotalChunks(docs)
    ensures forall i :: 0 <= i < |docs| ==> StatsOf(docs, chunks).documents[i] == docs[i].info
  {
    DistinctKeysCount(docs);
    LayoutCounts(docs, chunks);
  }

  /** Adding a fresh document counts one more document and its chunks, listed last. */
  lemma StatsAfterAdd(docs: seq<DocEntry>, chunks: seq<ChunkRecord>, e: DocEntry, records: seq<ChunkRecord>)
    requires e.docId !in DocIds(docs)
    ensures var before, after := StatsOf(docs, chunks), StatsOf(docs + [e], chunks + records);
      && after.totalDocuments == before.totalDocuments + 1
      && after.totalChunks == before.totalChunks + |records|
      && after.documents == before.documents + [e.info]
  {
    DocIdsSnoc(docs, e);
    var before, after := StatsOf(docs, chunks), StatsOf(docs + [e], chunks + records);
    assert forall i :: 0 <= i < |docs| ==> after.documents[i] == before.documents[i];
  }

  /** Adding a document's numbered records keeps the layout; the new block sits at the end. */
  lemma LayoutAfterAdd(docs: seq<DocEntry>, chunks: seq<ChunkRecord>, e: DocEntry, cs: seq<Chunk>)
    requires Layout(docs, chunks) && e.info.chunks == |cs|
    ensures Layout(docs + [e], chunks + RecordsOf(e.docId, e.info.filename, cs))
  {
    var records := RecordsOf(e.docId, e.info.filename, cs);
    RecordsOfFacts(e.docId, e.info.filename, cs);
    var all, ds := chunks + records, docs + [e];
    assert ds[..|docs|] == docs;
    assert all[..|all| - |cs|] == chunks;
    assert all[|all| - |cs|..] == records;
  }

  /** Adding a fresh document with its numbered records keeps the documents a dictionary and the layout. */
  lemma AddKeepsValid(docs: seq<DocEntry>, chunks: seq<ChunkRecord>, e: DocEntry, cs: seq<Chunk>)
    requires e.docId !in DocIds(docs) && e.info.chunks == |cs|
    ensures KeysDistinct(docs) && Layout(docs, chunks) ==>
      KeysDistinct(docs + [e]) && Layout(docs + [e], chunks + RecordsOf(e.docId, e.info.filename, cs))
  {
    if KeysDistinct(docs) && Layout(docs, chunks) {
      LayoutAfterAdd(docs, chunks, e, cs);
      var ds := docs + [e];
      forall i, j | 0 <= i < j < |ds| ensures ds[i].docId != ds[j].docId {
        assert ds[i] == docs[i];
        if j < |docs| {
          assert ds[j] == docs[j];
        }
      }
    }
  }

  /** The knowledge base. */
  class RAGEngine {
    var documents: seq<DocEntry>
    var chunks: seq<ChunkRecord>

    /** The documents form a dictionary and the chunk list is their numbered blocks. */
    predicate Valid()
      reads this
    {
      KeysDistinct(documents) && Layout(documents, chunks)
    }

    constructor()
      ensures Valid() && documents == [] && chunks == []
    {
      documents := [];
      chunks := [];
    }

    /** `get_document_stats()`. */
    function Stats(): (r: Stats)
      reads this
      ensures Valid() ==> r.totalDocuments == |documents| && r.totalChunks == TotalChunks(documents)
      ensures Valid() ==> |r.documents| == |documents| && forall i :: 0 <= i < |documents| ==> r.documents[i] == documents[i].info
    {
      var r := StatsOf(documents, chunks);
      // Under the invariant, the lemma gives the counts and the order.
      if Valid() then ValidStats(documents, chunks); r else r
    }

    /**
     * `add_document`, given the extracted text and a fresh document id in
     * place of `uuid.uuid4()`: chunk the text, append one record per chunk,
     * store the metadata, return the id and the number of chunks.
     */
    method AddDocument(text: string, filename: string, freshId: string) returns (docId: string, count: nat)
      requires freshId !in DocIds(documents)
      modifies this
      ensures docId == freshId && count == |ChunkText(text, DefaultChunkSize)|
      ensures chunks == old(chunks) + RecordsOf(docId, filename, ChunkText(text, DefaultChunkSize))
      ensures documents == old(documents) + [DocEntry(docId, DocInfo(filename, count, |text|, Preview(text)))]
      ensures old(Valid()) ==> Valid()
      ensures Stats().totalDocuments == old(Stats().totalDocuments) + 1
      ensures Stats().totalChunks == old(Stats().totalChunks) + count
      ensures Stats().documents == old(Stats().documents) + [DocInfo(filename, count, |text|, Preview(text))]
    {
      var documentText := text;
      var docChunks := CreateChunks(documentText, DefaultChunkSize, DefaultOverlap);
      docId := freshId;
      ghost var oldChunks := chunks;
      ghost var oldDocuments := documents;
      StoreChunks(docId, filename, docChunks);
      count := |docChunks|;
      var preview := Preview(documentText);
      var entry := DocEntry(docId, DocInfo(filename, count, |documentText|, preview));
      documents := documents + [entry];
      RecordsLength(docId, filename, docChunks);
      StatsAfterAdd(oldDocuments, oldChunks, entry, RecordsOf(docId, filename, docChunks));
      AddKeepsValid(oldDocuments, oldChunks, entry, docChunks);
    }

    /** The loop of `add_document` that appends one numbered record per chunk. */
    method StoreChunks(docId: string, filename: string, docChunks: seq<Chunk>)
      modifies this
      ensures chunks == old(chunks) + RecordsOf(docId, filename, docChunks)
      ensures documents == old(documents)
    {
      ghost var oldChunks := chunks;
      for i := 0 to |docChunks|
        invariant chunks == oldChunks + RecordsOf(docId, filename, docChunks[..i])
        invariant documents == old(documents)
      {
        var chunk := docChunks[i];
        var chunkData := ChunkRecord(docId + "_" + NatToString(i), chunk.text, Lower(chunk.text),
          filename, docId, i, chunk.length, chunk.sentenceCount);
        assert docChunks[..i + 1][..i] == docChunks[..i];
        chunks := chunks + [chunkData];
      }
      assert docChunks[..|docChunks|] == docChunks;
    }

    /** `search_relevant_content(query, max_results)`. */
    method SearchRelevantContent(query: string, maxResults: int) returns (results: seq<Hit>)
      ensures results == SearchResults(chunks, query, maxResults)
    {
      if chunks == [] {
        return [];
      }
      var queryLower := Lower(query);
      var queryWords := Tokens(queryLower);
      if queryWords == {} {
        return [];
      }
      var scored: seq<Hit> := [];
      for i := 0 to |chunks|
        invariant scored == Scored(chunks[..i], queryLower, queryWords)
      {
        var chunk := chunks[i];
        assert chunks[..i + 1][..i] == chunks[..i];
        var chunkWords := Tokens(chunk.textLower);
        var commonWords := queryWords * chunkWords;
        if commonWords != {} {
          var baseScore := |commonWords| as real / |queryWords| as real;
          var phraseBonus := if Contains(chunk.textLower, queryLower) then PhraseBonus else 0.0;
          var sequenceBonus := if |commonWords| > 1 then SequenceBonus else 0.0;
          var finalScore := baseScore + phraseBonus + sequenceBonus;
          scored := scored + [Hit(chunk.text, chunk.filename, Min(finalScore, 1.0), chunk.chunkIndex, commonWords)];
        }
      }
      assert chunks[..|chunks|] == chunks;
      scored := SortDesc(scored);
      results := Take(scored, maxResults);
    }

    /**
     * `generate_answer(question, complexity_level)` with the language model
     * given as `generate`. `asked` is the prompt sent to it, if any.
     */
    method GenerateAnswer(question: string, complexityLevel: string, generate: string -> Outcome<string>)
      returns (r: Outcome<Answer>, asked: Option<string>)
      ensures var hits := SearchResults(chunks, question, AnswerResults);
        hits == [] ==> r == Success(Answer(NoContentAnswer, [], 0)) && asked == None
      ensures var hits := SearchResults(chunks, question, AnswerResults);
        hits != [] ==> asked == Some(AnswerPrompt(Context(hits), question, StyleFor(complexityLevel)))
      ensures var hits := SearchResults(chunks, question, AnswerResults);
        hits != [] && generate(asked.value).Failure? ==>
          r == Failure(AnswerFailedPrefix + generate(asked.value).message)
      ensures var hits := SearchResults(chunks, question, AnswerResults);
        hits != [] && generate(asked.value).Success? ==>
          && r.Success? && r.value.answer == generate(asked.value).value
          && r.value.contextUsed == |hits| && SourcesOf(r.value.sources, hits)
    {
      var relevantChunks := SearchRelevantContent(question, AnswerResults);
      if relevantChunks == [] {
        r := Success(Answer(NoContentAnswer, [], 0));
        asked := None;
        return;
      }
      var context := BuildContext(relevantChunks);
      var styleInstruction := if Contains(Lower(complexityLevel), "advanced") then AdvancedStyle else BeginnerStyle;
      var prompt := PromptIntro + context + PromptQuestion + question + PromptApproach + styleInstruction + PromptGuidelines;
      asked := Some(prompt);
      match generate(prompt)
      case Failure(message) =>
        r := Failure(AnswerFailedPrefix + message);
      case Success(aiResponse) =>
        var sources := BuildSources(relevantChunks);
        r := Success(Answer(aiResponse, sources, |relevantChunks|));
    }

    /** The loop of `generate_answer` that labels each result and joins the blocks. */
    method BuildContext(relevantChunks: seq<Hit>) returns (context: string)
      ensures context == Context(relevantChunks)
    {
      var contextParts: seq<string> := [];
      for i := 0 to |relevantChunks|
        invariant contextParts == ContextBlocks(relevantChunks[..i])
      {
        var chunk := relevantChunks[i];
        assert relevantChunks[..i + 1][..i] == relevantChunks[..i];
        var sourceInfo := "Source " + NatToString(i + 1) + " from " + chunk.filename;
        contextParts := contextParts + ["[" + sourceInfo + "]\n" + chunk.text];
      }
      assert relevantChunks[..|relevantChunks|] == relevantChunks;
      context := JoinWith("\n\n", contextParts);
    }

    /** The loop of `generate_answer` that builds `sources`; the first five matching words are any five. */
    method BuildSources(relevantChunks: seq<Hit>) returns (sources: seq<Source>)
      ensures SourcesOf(sources, relevantChunks)
    {
      sources := [];
      for i := 0 to |relevantChunks|
        invariant SourcesOf(sources, relevantChunks[..i])
      {
        var chunk := relevantChunks[i];
        var words := chunk.matchingWords;
        var limit := if |words| <= MaxMatchingTerms then |words| else MaxMatchingTerms;
        SubsetOfSize(words, limit);
        var terms :| terms <= words && |terms| == limit;
        sources := sources + [Source(chunk.filename, chunk.score, terms)];
      }
      assert relevantChunks[..|relevantChunks|] == relevantChunks;
    }

    /**
     * `generate_study_quiz(topic, question_count)` with the language model
     * given as `generate`; `None` and the empty topic both mean no topic.
     */
    method GenerateStudyQuiz(topic: Option<string>, questionCount: int, generate: string -> Outcome<string>)
      returns (r: Quiz, asked: Option<string>)
      ensures var hits := SearchResults(chunks, QuizQueryFor(topic), QuizResults);
        hits == [] ==> r == QuizError(InsufficientContent) && asked == None
      ensures var hits := SearchResults(chunks, QuizQueryFor(topic), QuizResults);
        hits != [] ==> asked == Some(QuizPrompt(questionCount, QuizContent(hits)))
      ensures var hits := SearchResults(chunks, QuizQueryFor(topic), QuizResults);
        hits != [] && generate(asked.value).Failure? ==>
          r == QuizError(QuizFailedPrefix + generate(asked.value).message)
      ensures var hits := SearchResults(chunks, QuizQueryFor(topic), QuizResults);
        hits != [] && generate(asked.value).Success? ==>
          r == Quiz(generate(asked.value).value, FileNames(Take(hits, QuizContextChunks)), questionCount)
    {
      var relevantChunks: seq<Hit>;
      if topic.Some? && topic.value != [] {
        relevantChunks := SearchRelevantContent(topic.value, QuizResults);
      } else {
        relevantChunks := SearchRelevantContent(QuizQuery, QuizResults);
      }
      if relevantChunks == [] {
        r := QuizError(InsufficientContent);
        asked := None;
        return;
      }
      var top := Take(relevantChunks, QuizContextChunks);
      var quizContent := JoinWith("\n\n", Texts(top));
      var quizPrompt := QuizIntro + IntToString(questionCount) + QuizMaterial + quizContent + QuizInstructions;
      asked := Some(quizPrompt);
      match generate(quizPrompt)
      case Failure(message) =>
        r := QuizError(QuizFailedPrefix + message);
      case Success(quizResponse) =>
        r := Quiz(quizResponse, FileNames(top), questionCount);
    }
  }
}
