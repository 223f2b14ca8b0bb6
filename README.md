# MYTUTS retrieval core in Dafny

This project models the retrieval core of the MYTUTS study assistant, the
class `RAGEngine` in `rag_engine.py`, and proves properties of it:

- `preprocess_text` normalises whitespace, blanks out unusual characters and
  trims the result (module `Normalizer`, character classes in `Text`).
- The sentence split `re.split(r'(?<=[.!?])\s+', ...)` is module `Sentences`.
- `create_chunks` is module `Chunker`. It packs sentences greedily into
  chunks against a soft size, and when a closed chunk held more than two
  sentences it carries the last two into the next one. The loop over the
  sentences is the method `PackSentences`, called by `CreateChunks`. It is
  proved equal to the fold `Pack`, so `CreateChunks` equals `ChunkText`, whose
  properties are lemmas.
- Word extraction `re.findall(r'\b\w+\b', ...)` is module `Tokenizer`.
- `search_relevant_content` is module `Retrieval`:
  - the score is the share of query words, plus the phrase bonus and the
    multi-word bonus, capped at 1.0;
  - the sort is stable and descending;
  - the cut-off is a Python slice.
- The deterministic parts of `generate_answer` and `generate_study_quiz` are
  module `Composer`:
  - the labelled context and the style choice;
  - the prompts, the sources and the result shapes.
- The knowledge base itself is the class `Engine.RAGEngine`:
  - the list `self.chunks` and the dictionary `self.documents` are fields;
  - `add_document`, `get_document_stats`, `search_relevant_content`,
    `generate_answer` and `generate_study_quiz` are its members;
  - its invariant `Valid` says the document ids are distinct and the chunk
    list is the documents' numbered blocks, in insertion order.
- Module `Scenarios` replays the search in `tests/test_basic.py` on its two
  mock chunks.

The language model behind `call_google_ai` is a parameter, `generate`. It
answers a prompt with a text or fails with a message. `GenerateAnswer` and
`GenerateStudyQuiz` also return the prompt they sent (`asked`), so their
contracts can say what was asked of the model.

`add_document` fails only when PDF extraction fails (the file cannot be
read, or it holds no readable text). Given text
whose cleaned form is empty, it stores a document with zero chunks
(`Chunker.ChunkTextFacts` shows that such a text gives no chunks).

## Model

| member | source | states |
|---|---|---|
| Text.Lower | rag_engine.py:162 | lower-casing keeps the length and maps each character to its lower-case form |
| Text.Contains | rag_engine.py:220 | `needle in hay` holds exactly when `needle` occurs at some position of `hay` |
| Text.JoinWith | rag_engine.py:325 | joining one part gives that part |
| Text.JoinHasPart | rag_engine.py:325 | every part occurs in the join of the parts |
| Text.ParseNatToString | rag_engine.py:160 | the decimal rendering of a number reads back as that number, so distinct numbers render differently |
| Text.IntToString | rag_engine.py:434 | the rendering of the question count as text in the quiz prompt |
| Normalizer.CollapseRuns | rag_engine.py:70-74 | replacing runs by one blank never lengthens the text and leaves no two adjacent run characters; every output character is a blank or an input character outside the class |
| Normalizer.CollapseRunsSplit | rag_engine.py:70-74 | a maximal run of the class, between characters outside it or the ends, becomes exactly one blank in its place, and the text on either side is collapsed on its own |
| Normalizer.CollapseRunsOfNone | rag_engine.py:70-74 | text without a character of the class is left unchanged |
| Normalizer.CollapseRunsKeepsOthers | rag_engine.py:70-74 | for a class holding the blank, the characters outside the class (punctuation and sentence terminators among them) all survive, in order |
| Normalizer.ReplaceDisallowed | rag_engine.py:72 | every character outside word characters, whitespace and the kept punctuation becomes a blank, position by position |
| Normalizer.TrimStart | rag_engine.py:75 | strips exactly the leading whitespace |
| Normalizer.TrimEnd | rag_engine.py:75 | strips exactly the trailing whitespace |
| Normalizer.Preprocess | rag_engine.py:67-75 | the result is clean: only allowed characters, single blanks as the only whitespace, no leading or trailing blank |
| Normalizer.CleanIsFixedPoint | rag_engine.py:67-75 | clean text is left unchanged by preprocessing |
| Normalizer.PreprocessIdempotent | rag_engine.py:67-75 | preprocessing twice equals preprocessing once |
| Normalizer.PreprocessKeepsWords | rag_engine.py:67-75 | preprocessing keeps the sequence of words (maximal runs of word characters) unchanged; tests/test_basic.py:35-42 relies on it |
| Sentences.FirstBreak | rag_engine.py:93 | finds the first whitespace position just after a terminator `.`, `!` or `?` |
| Sentences.SplitSentences | rag_engine.py:93 | the split always has at least one piece |
| Sentences.SplitCleanText | rag_engine.py:93 | clean non-empty text splits into clean sentences without internal breaks, each but the last ending in a terminator, which joined with single blanks give back the text |
| Sentences.SplitEmpty | rag_engine.py:93 | the empty text splits into one empty piece |
| Chunker.PackFacts | rag_engine.py:95-128 | packing sentences gives one chunk per sentence group; the groups minus their carried-over seeds are the sentences in order; the overlap rule, the soft size bound and the closing rule hold; no chunk exactly when there is no sentence |
| Chunker.ChunkTextFacts | rag_engine.py:77-130 | `create_chunks` gives no chunk exactly when the cleaned text is empty; otherwise the chunks are well packed over the sentences of the cleaned text, which join back to it, and every chunk has non-empty text and at least one sentence |
| Chunker.ChunksAreNonEmpty | rag_engine.py:104-108 | every chunk's text is non-empty and already trimmed, its `length` is the length of that text, and its `sentence_count` is at least one |
| Chunker.SentencesOfText | rag_engine.py:90-93 | the sentences of non-empty cleaned text join back to it |
| Chunker.OneChunkIffFits | rag_engine.py:99-128 | non-empty sentences give exactly one chunk if and only if there is one sentence or their join fits the size; that chunk is then the join of all of them (tests/test_basic.py:63-66) |
| Chunker.CreateChunks | rag_engine.py:77-130 | cleaning, splitting and the packing loop give exactly `ChunkText`, whose properties are the lemmas above |
| Chunker.PackSentences | rag_engine.py:95-128 | the loop over the sentences computes exactly `Pack` |
| Chunker.PackOfSentences | rag_engine.py:95-128 | sentences without internal breaks pack into at least one chunk, well packed, each chunk with non-empty text and at least one sentence |
| Chunker.PackOfBlank | rag_engine.py:93-128 | the single empty piece that blank text splits into gives no chunk, since the final chunk is only kept when its stripped text is non-empty |
| Tokenizer.RunLength | rag_engine.py:202 | the length of the leading run of word characters, which is maximal |
| Tokenizer.TokensAreMaximalRuns | rag_engine.py:202 | a word is found exactly when it is a maximal run of word characters somewhere in the text |
| Tokenizer.TokenPosition | rag_engine.py:202 | every word found is spelled by a maximal run of word characters of the text |
| Tokenizer.MaximalRunIsToken | rag_engine.py:202 | every maximal run of word characters is found as a word |
| Retrieval.ScoreInRange | rag_engine.py:215-230 | a matching chunk scores in (0, 1], at least its share of query words, and exactly 1.0 when it holds every query word |
| Retrieval.ScoreChunk | rag_engine.py:210-233 | a chunk is scored exactly when it shares a word with the query; the entry carries its text, file name, index and exactly the shared words |
| Retrieval.ScoredHits | rag_engine.py:209-233 | every scored entry comes from some chunk, shares a non-empty subset of the query words and scores in (0, 1] |
| Retrieval.ScoredCovers | rag_engine.py:209-233 | every chunk sharing a word with the query appears among the scored entries |
| Retrieval.ScoredHead | rag_engine.py:209-233 | a scoring first chunk heads the scored list |
| Retrieval.InsertPerm | rag_engine.py:236 | inserting adds exactly the one entry |
| Retrieval.InsertSorted | rag_engine.py:236 | inserting into a descending list keeps it descending |
| Retrieval.InsertKeepsTies | rag_engine.py:236 | inserting puts the new entry in front of the entries of equal score already sorted, so it keeps its place before the later entries |
| Retrieval.SortDescCorrect | rag_engine.py:236 | the sort is descending by score, a permutation, and stable: entries of equal score keep their order |
| Retrieval.SortKeepsTopFirst | rag_engine.py:236 | an entry that no later entry outscores stays first |
| Retrieval.Take | rag_engine.py:239 | Python's `xs[:k]`: a prefix of length `k`, or of `len + k` for negative `k`, cut at the bounds |
| Retrieval.SearchNothing | rag_engine.py:197-205 | an empty chunk list or a query without words finds nothing |
| Retrieval.SearchFacts | rag_engine.py:186-239 | the results are the first `max_results` of the scored entries sorted stably; each comes from a chunk, reports the shared words and scores in (0, 1] |
| Retrieval.FullMatchRanksFirst | rag_engine.py:215-239 | a first chunk holding every query word comes first with score 1.0 |
| Retrieval.SearchSorted | rag_engine.py:236-239 | the results are in non-increasing score order |
| Scenarios.QueryTokens | tests/test_basic.py:105 | the query "Newton first law" has the words `newton`, `first`, `law` |
| Scenarios.NewtonChunkHasQueryWords | tests/test_basic.py:82-90 | the first mock chunk contains every query word |
| Scenarios.NewtonRanksFirst | tests/test_basic.py:82-108 | the search returns results, the first is the Newton chunk, scores 1.0 and contains "Newton" |
| Composer.StyleChoice | rag_engine.py:328-341 | the technical template is chosen if and only if "advanced" occurs in the lower-cased level, otherwise the beginner template |
| Composer.StyleIgnoresCase | rag_engine.py:328 | the choice of style does not depend on letter case |
| Composer.ContextBlocks | rag_engine.py:320-323 | one labelled block per result |
| Composer.ContextBlockAt | rag_engine.py:321-323 | block `i` is `[Source i+1 from <filename>]` followed by the result's text |
| Composer.ContextCarriesSources | rag_engine.py:320-325 | the context contains every result's text, its file name and its 1-based label |
| Composer.AnswerPromptCarries | rag_engine.py:344-362 | the answer prompt contains the context, the question and the style instruction |
| Composer.SubsetOfSize | rag_engine.py:373 | a set has subsets of every size up to its own, so the first five matching words exist |
| Composer.QuizQueryFor | rag_engine.py:422-426 | the quiz searches with the topic when it is given and non-empty, otherwise with the general query |
| Composer.Texts | rag_engine.py:432 | the texts of the results, in order |
| Composer.FileNames | rag_engine.py:456 | the set of file names of the results |
| Composer.QuizContentCarries | rag_engine.py:432 | the study material contains the text of each of the first three results |
| Composer.QuizPromptCarries | rag_engine.py:434-450 | the quiz prompt contains the material and the question count |
| Engine.Preview | rag_engine.py:176 | the preview is the text when it has at most 300 characters, else its first 300 characters followed by "..." |
| Engine.RecordIdInjective | rag_engine.py:160 | distinct documents or positions give distinct record ids |
| Engine.RecordsOfFacts | rag_engine.py:158-169 | one record per chunk, numbered from 0, carrying the chunk's text, lower-cased text, length and sentence count, the file name and the document id |
| Engine.LayoutCounts | rag_engine.py:169-174 | the chunk list holds as many records as the documents' `chunks` entries add up to |
| Engine.LayoutRecords | rag_engine.py:158-169 | every record belongs to a stored document and carries its document's id and its index |
| Engine.IdsDistinct | rag_engine.py:155-169 | no two stored records share an id |
| Engine.DistinctKeysCount | rag_engine.py:398 | a dictionary's length is its number of entries |
| Engine.RAGEngine.Stats | rag_engine.py:389-401 | under the invariant, the statistics report the number of stored documents, the sum of their chunk counts and their metadata in insertion order |
| Engine.ValidStats | rag_engine.py:389-401 | the statistics report the number of documents, the sum of their chunk counts and the metadata in insertion order |
| Engine.StatsAfterAdd | rag_engine.py:169-177 | adding a fresh document counts one more document and its chunks, listed last |
| Engine.AddKeepsValid | rag_engine.py:155-177 | adding a fresh document with its numbered records keeps the ids distinct and the layout |
| Engine.RAGEngine.constructor | rag_engine.py:16-19 | the knowledge base starts empty and valid |
| Engine.RAGEngine.AddDocument | rag_engine.py:132-180 | returns the fresh id and the chunk count; appends exactly the numbered records and the metadata entry; keeps the invariant; the totals grow by one document and by the chunk count |
| Engine.RAGEngine.StoreChunks | rag_engine.py:158-169 | appends exactly the numbered records of the chunks |
| Engine.RAGEngine.SearchRelevantContent | rag_engine.py:186-239 | the loop computes exactly `SearchResults` on the stored chunks |
| Engine.RAGEngine.BuildContext | rag_engine.py:320-325 | the loop builds exactly the labelled context |
| Engine.RAGEngine.BuildSources | rag_engine.py:368-374 | one source per result, with its file name, score and at most five of its matching words |
| Engine.RAGEngine.GenerateAnswer | rag_engine.py:295-387 | no results: the fixed answer, no model call; otherwise the prompt of context, question and style is sent; a failure gives the prefixed message; a success gives the model's text, one source per result and the result count |
| Engine.RAGEngine.GenerateStudyQuiz | rag_engine.py:409-461 | no results: the fixed error, no model call; otherwise the quiz prompt of the first three texts is sent; a failure gives the prefixed error; a success gives the model's text, the file names of the first three results and the question count |

## Left out

- PDF extraction (`extract_text_from_pdf`): it reads a file through PyPDF2. `AddDocument` takes the extracted text.
- The HTTP request in `call_google_ai`: it is the parameter `generate`. Its error wrapping is folded into the message the oracle returns.
- `uuid.uuid4()` is a parameter `freshId`, required not to be a stored id.
- The API key read from the environment in `__init__`, with its `ValueError` when it is missing, and the endpoint URL belong only to the model call, which is a parameter.
- Logging through `print` has no effect on the state and is left out.
- Floating point: scores are exact reals, so rounding in the score is not modelled.
- `\w` and `lower()` are ASCII: `\w` is letters, digits and `_`, and `lower()` maps `A`-`Z`. Python's Unicode versions are wider, and the model does not capture that. `\s` (`Text.IsSpace`) is the full set of `str.isspace()`.
- `matching_words[:5]` takes the first five of a list built from a set, and that order is unspecified. `BuildSources` picks any subset of the right size.
- Composer.FileNames: `list(set(...))` of the quiz's file names is a `set<string>`. The model keeps its elements, not the list type or its unspecified order.
- Engine.RAGEngine.BuildSources: the contract states that the five terms are shared words, not which five, because the source's order is unspecified.
- The `except` fallbacks of `search_relevant_content` and `get_document_stats`: nothing in the modelled code raises in those blocks.
- Exceptions raised by `generate_answer` are modelled as `Failure` with the prefixed message.
- `overlap` of `create_chunks` is never read by the source and is ignored by `CreateChunks` too.
- The loops of `add_document` and `generate_answer` are separate methods (`StoreChunks`, `BuildContext`, `BuildSources`). Each keeps its loop, and their ensures are what the caller uses.
- `self.documents` is a sequence of entries with distinct keys: Python dictionaries keep insertion order.
- The Streamlit interface (`app.py`) is not part of this model.
