/**
 * The deterministic assembly around the language-model call in
 * `generate_answer` and `generate_study_quiz`: the labelled context, the
 * choice of explanation style, the prompts and the shape of the results.
 * The call itself (`call_google_ai`) is an oracle that answers a prompt
 * with a text or fails with a message.
 */
module Composer {
  import opened Text
  import opened Retrieval

  /** What the oracle answers: the generated text, or the message of the exception it raised. */
  datatype Outcome<T> = Success(value: T) | Failure(message: string)

  /** One entry of `sources`: `filename`, `confidence`, `matching_terms`. */
  datatype Source = Source(filename: string, confidence: real, matchingTerms: set<string>)

  /** The dictionary `generate_answer` returns: `answer`, `sources`, `context_used`. */
  datatype Answer = Answer(answer: string, sources: seq<Source>, contextUsed: nat)

  /** The dictionary `generate_study_quiz` returns: the quiz, or `{"error": ...}`. */
  datatype Quiz =
    | Quiz(quizContent: string, sourceDocuments: set<string>, questionsGenerated: int)
    | QuizError(error: string)

  const AnswerResults := 3
  const QuizResults := 5
  const QuizContextChunks := 3
  const MaxMatchingTerms := 5

  const NoContentAnswer :=
    "I couldn't find relevant information in your uploaded documents to answer this question. "
    + "Please make sure you've uploaded materials that cover this topic, or try rephrasing your question with different keywords."

  const AnswerFailedPrefix := "Answer generation failed: "

  const AdvancedStyle :=
    "Provide a comprehensive, technical explanation that includes:\n"
    + "- Detailed technical terminology and precise definitions\n"
    + "- In-depth analysis of processes and mechanisms\n"
    + "- Mathematical formulations, equations, or formulas when applicable\n"
    + "- Advanced conceptual relationships and theoretical implications\n"
    + "- References to established principles and theories"

  const BeginnerStyle :=
    "Provide a clear, beginner-friendly explanation that includes:\n"
    + "- Simple, accessible language with helpful analogies\n"
    + "- Step-by-step breakdown of complex concepts\n"
    + "- Real-world examples and practical applications\n"
    + "- Minimal technical jargon, with explanations when necessary\n"
    + "- Easy-to-understand comparisons and metaphors"

  const PromptIntro :=
    "You are MYTUTS, an intelligent AI study assistant helping students understand their course materials. "
    + "Your role is to provide clear, accurate explanations based on the uploaded study documents.\n"
    + "\n"
    + "CONTEXT FROM STUDENT'S UPLOADED MATERIALS:\n"
  const PromptQuestion := "\n\nSTUDENT'S QUESTION: "
  const PromptApproach := "\n\nEXPLANATION APPROACH: "
  const PromptGuidelines :=
    "\n"
    + "\n"
    + "RESPONSE GUIDELINES:\n"
    + "1. Answer the question directly and comprehensively using the provided context\n"
    + "2. Apply the specified complexity level consistently throughout your response\n"
    + "3. Include specific details, examples, and explanations from the context\n"
    + "4. Structure your response clearly with appropriate headings or organization\n"
    + "5. If the context doesn't fully address the question, mention what additional information would be helpful\n"
    + "6. Always ground your response in the provided materials\n"
    + "7. Be engaging and educational while maintaining accuracy\n"
    + "\n"
    + "Please provide your detailed response:"

  const QuizQuery := "main concepts key points important"
  const InsufficientContent := "Insufficient content available for quiz generation. Please upload more study materials."
  const QuizFailedPrefix := "Quiz generation failed: "

  const QuizIntro := "Based on the following study material, create "
  const QuizMaterial :=
    " educational quiz questions to test student understanding:\n"
    + "\n"
    + "STUDY MATERIAL:\n"
  const QuizInstructions :=
    "\n"
    + "\n"
    + "Please create a variety of question types:\n"
    + "- Multiple choice questions with 4 options each (label A, B, C, D)\n"
    + "- Short answer questions\n"
    + "- True/false questions\n"
    + "\n"
    + "For each question:\n"
    + "1. Clearly state the question\n"
    + "2. Provide all answer options (for multiple choice)\n"
    + "3. Indicate the correct answer\n"
    + "4. Give a brief explanation of why the answer is correct\n"
    + "\n"
    + "Format the quiz clearly with numbered questions."

  // ---------------------------------------------------------------
  // The answer prompt
  // ---------------------------------------------------------------

  /** The technical template when "advanced" occurs in the lower-cased level, the beginner one otherwise. */
  function StyleFor(complexityLevel: string): string {
    if Contains(Lower(complexityLevel), "advanced") then AdvancedStyle else BeginnerStyle
  }

  /** The two templates differ, so the style tells which branch was taken. */
  lemma StyleChoice(complexityLevel: string)
    ensures StyleFor(complexityLevel) == AdvancedStyle <==> Contains(Lower(complexityLevel), "advanced")
    ensures StyleFor(complexityLevel) == BeginnerStyle <==> !Contains(Lower(complexityLevel), "advanced")
  {
    assert |AdvancedStyle| != |BeginnerStyle|;
  }

  /** The choice does not depend on letter case. */
  lemma StyleIgnoresCase(complexityLevel: string)
    ensures StyleFor(Lower(complexityLevel)) == StyleFor(complexityLevel)
  {
    var l := Lower(complexityLevel);
    assert Lower(l) == l by {
      assert forall i :: 0 <= i < |l| ==> Lower(l)[i] == l[i];
    }
  }

  /** `f"Source {i+1} from {filename}"` for the result at position `i`. */
  function SourceInfo(i: nat, h: Hit): string {
    "Source " + NatToString(i + 1) + " from " + h.filename
  }

  /** `f"[{source_info}]\n{text}"`. */
  function SourceBlock(i: nat, h: Hit): string {
    "[" + SourceInfo(i, h) + "]\n" + h.text
  }

  /** `context_parts` after the loop over the given results. */
  function ContextBlocks(hits: seq<Hit>): (r: seq<string>)
    ensures |r| == |hits|
    decreases |hits|
  {
    if hits == [] then []
    else ContextBlocks(hits[..|hits| - 1]) + [SourceBlock(|hits| - 1, hits[|hits| - 1])]
  }

  lemma {:induction false} ContextBlockAt(hits: seq<Hit>, i: nat)
    requires i < |hits|
    ensures ContextBlocks(hits)[i] == SourceBlock(i, hits[i])
    decreases |hits|
  {
    var n := |hits| - 1;
    if i < n {
      ContextBlockAt(hits[..n], i);
      assert hits[..n][i] == hits[i];
    }
  }

  /** `"\n\n".join(context_parts)`. */
  function Context(hits: seq<Hit>): string {
    JoinWith("\n\n", ContextBlocks(hits))
  }

  /** The context carries every result's text and file name, labelled with its 1-based position. */
  lemma ContextCarriesSources(hits: seq<Hit>, i: nat)
    requires i < |hits|
    ensures Contains(Context(hits), hits[i].text)
    ensures Contains(Context(hits), hits[i].filename)
    ensures Contains(Context(hits), "[" + SourceInfo(i, hits[i]) + "]\n")
  {
    ContextBlockAt(hits, i);
    var b := SourceBlock(i, hits[i]);
    JoinHasPart("\n\n", ContextBlocks(hits), i);
    BlockPieces(NatToString(i + 1), hits[i].filename, hits[i].text);
    ContainsTrans(Context(hits), b, hits[i].text);
    ContainsTrans(Context(hits), b, hits[i].filename);
    ContainsTrans(Context(hits), b, "[" + SourceInfo(i, hits[i]) + "]\n");
  }

  lemma BlockPieces(n: string, f: string, t: string)
    ensures var head := "[" + ("Source " + n + " from " + f) + "]\n";
      Contains(head + t, t) && Contains(head + t, f) && Contains(head + t, head)
  {
    var head := "[" + ("Source " + n + " from " + f) + "]\n";
    var tag := "[" + "Source " + n + " from ";
    OccursInMiddle(tag, f, "]\n" + t);
    assert tag + f + ("]\n" + t) == head + t;
    OccursInMiddle(head, t, "");
    assert head + t + "" == head + t;
    OccursInMiddle("", head, t);
    assert "" + head + t == head + t;
  }

  lemma ContainsTrans(hay: string, mid: string, needle: string)
    requires Contains(hay, mid) && Contains(mid, needle)
    ensures Contains(hay, needle)
  {
    var i: nat :| OccursAt(hay, mid, i);
    var j: nat :| OccursAt(mid, needle, j);
    OccursTrans(hay, mid, needle, i, j);
  }

  /** The prompt `generate_answer` sends. */
  function AnswerPrompt(context: string, question: string, style: string): string {
    PromptIntro + context + PromptQuestion + question + PromptApproach + style + PromptGuidelines
  }

  /** The prompt carries the context, the question and the style. */
  lemma AnswerPromptCarries(context: string, question: string, style: string)
    ensures Contains(AnswerPrompt(context, question, style), context)
    ensures Contains(AnswerPrompt(context, question, style), question)
    ensures Contains(AnswerPrompt(context, question, style), style)
  {
    SevenParts(PromptIntro, context, PromptQuestion, question, PromptApproach, style, PromptGuidelines);
  }

  /** The second, fourth and sixth of seven concatenated pieces occur in the whole. */
  lemma SevenParts(a: string, b: string, c: string, d: string, e: string, f: string, g: string)
    ensures Contains(a + b + c + d + e + f + g, b)
    ensures Contains(a + b + c + d + e + f + g, d)
    ensures Contains(a + b + c + d + e + f + g, f)
  {
    SecondOfSeven(a, b, c, d, e, f, g);
    FourthOfSeven(a, b, c, d, e, f, g);
    OccursInMiddle(a + b + c + d + e, f, g);
  }

  lemma SecondOfSeven(a: string, b: string, c: string, d: string, e: string, f: string, g: string)
    ensures Contains(a + b + c + d + e + f + g, b)
  {
    OccursInMiddle(a, b, c + d + e + f + g);
    assert a + b + (c + d + e + f + g) == a + b + c + d + e + f + g;
  }

  lemma FourthOfSeven(a: string, b: string, c: string, d: string, e: string, f: string, g: string)
    ensures Contains(a + b + c + d + e + f + g, d)
  {
    OccursInMiddle(a + b + c, d, e + f + g);
    assert a + b + c + d + (e + f + g) == a + b + c + d + e + f + g;
  }

  /** Each source reports its result's file name and score and at most five of its matching words. */
  predicate SourcesOf(sources: seq<Source>, hits: seq<Hit>) {
    && |sources| == |hits|
    && forall i :: 0 <= i < |hits| ==>
      && sources[i].filename == hits[i].filename
      && sources[i].confidence == hits[i].score
      && sources[i].matchingTerms <= hits[i].matchingWords
      && |sources[i].matchingTerms| == if |hits[i].matchingWords| <= MaxMatchingTerms then |hits[i].matchingWords| else MaxMatchingTerms
  }

  /** A set has subsets of every size up to its own. */
  lemma {:induction false} SubsetOfSize(s: set<string>, k: nat)
    requires k <= |s|
    ensures exists t :: t <= s && |t| == k
    decreases k
  {
    if k == 0 {
      var e: set<string> := {};
      assert e <= s && |e| == 0;
    } else {
      SubsetOfSize(s, k - 1);
      var t :| t <= s && |t| == k - 1;
      assert |s - t| == |s| - |t| by {
        assert s == t + (s - t);
      }
      var x :| x in s - t;
      assert t + {x} <= s && |t + {x}| == k;
    }
  }

  // ---------------------------------------------------------------
  // The quiz prompt
  // ---------------------------------------------------------------

  /** The query `generate_study_quiz` searches with: the topic when it is given and non-empty. */
  function QuizQueryFor(topic: Option<string>): (q: string)
    ensures q == QuizQuery || (topic.Some? && q == topic.value)
    ensures (topic.Some? && topic.value != []) <==> q != QuizQuery || topic == Some(QuizQuery)
  {
    if topic.Some? && topic.value != [] then topic.value else QuizQuery
  }

  /** The texts of the results, in order. */
  function Texts(hits: seq<Hit>): (r: seq<string>)
    ensures |r| == |hits| && forall i :: 0 <= i < |hits| ==> r[i] == hits[i].text
  {
    seq(|hits|, i requires 0 <= i < |hits| => hits[i].text)
  }

  /** `set(chunk['filename'] for chunk in hits)`. */
  function FileNames(hits: seq<Hit>): (r: set<string>)
    ensures forall f :: f in r <==> exists i :: 0 <= i < |hits| && hits[i].filename == f
  {
    set i | 0 <= i < |hits| :: hits[i].filename
  }

  /** The study material of the quiz: the texts of at most the first three results. */
  function QuizContent(hits: seq<Hit>): string {
    JoinWith("\n\n", Texts(Take(hits, QuizContextChunks)))
  }

  /** The material carries the text of each of the first three results. */
  lemma QuizContentCarries(hits: seq<Hit>, i: nat)
    requires i < |hits| && i < QuizContextChunks
    ensures Contains(QuizContent(hits), hits[i].text)
  {
    var top := Take(hits, QuizContextChunks);
    assert top[i] == hits[i];
    JoinHasPart("\n\n", Texts(top), i);
  }

  /** The prompt `generate_study_quiz` sends. */
  function QuizPrompt(questionCount: int, content: string): string {
    QuizIntro + IntToString(questionCount) + QuizMaterial + content + QuizInstructions
  }

  lemma QuizPromptCarries(questionCount: int, content: string)
    ensures Contains(QuizPrompt(questionCount, content), content)
    ensures Contains(QuizPrompt(questionCount, content), IntToString(questionCount))
  {
    SevenParts(QuizIntro, IntToString(questionCount), QuizMaterial, content, QuizInstructions, "", "");
    assert QuizIntro + IntToString(questionCount) + QuizMaterial + content + QuizInstructions + "" + ""
      == QuizPrompt(questionCount, content);
  }
}
