/**
 * The program-management knowledge agent: a hard-coded keyword matcher and
 * the LLM answer with its missing-key short-circuit.
 */
module KnowledgeAgent {
  import opened Wrappers
  import opened Text

  // ---------------------------------------------------------------------
  // Hard-coded answers

  const GanttAnswer: string :=
    "A Gantt chart is a visual representation of a project schedule, showing tasks, durations, and dependencies."
  const AgileAnswer: string :=
    "Agile is a project management methodology that emphasizes iterative development, collaboration, and flexibility."
  const SprintAnswer: string :=
    "A sprint is a time-boxed period in Agile development during which specific work is completed and made ready for review."
  const CriticalPathAnswer: string :=
    "The critical path is the sequence of tasks that determines the minimum project duration."
  const MilestoneAnswer: string :=
    "A milestone is a significant point or event in a project, often used to measure progress."
  const DefaultAnswer: string :=
    "I'm sorry, I don't have an answer for that question."

  /** The six answers the matcher can give. */
  const Answers: set<string> :=
    {GanttAnswer, AgileAnswer, SprintAnswer, CriticalPathAnswer, MilestoneAnswer, DefaultAnswer}

  /** `get_hardcoded_answer`: the first keyword found in the lowercased question decides. */
  function HardcodedAnswer(question: string): (r: string)
    ensures r in Answers
  {
    var q := Lower(question);
    if Contains(q, "gantt chart") then GanttAnswer
    else if Contains(q, "agile") then AgileAnswer
    else if Contains(q, "sprint") then SprintAnswer
    else if Contains(q, "critical path") then CriticalPathAnswer
    else if Contains(q, "milestone") then MilestoneAnswer
    else DefaultAnswer
  }

  /** The six answers are pairwise different, so an answer tells which branch gave it. */
  lemma AnswersDistinct()
    ensures |Answers| == 6
  {
    assert |GanttAnswer| == 107 && |AgileAnswer| == 112 && |SprintAnswer| == 119;
    assert |CriticalPathAnswer| == 88 && |MilestoneAnswer| == 89 && |DefaultAnswer| == 52;
  }

  /**
   * The order of the tests: each answer is given exactly when its keyword
   * occurs in the lowercased question and no keyword tested before it does.
   */
  lemma HardcodedAnswerPriority(question: string)
    ensures var q := Lower(question); var r := HardcodedAnswer(question);
      && (r == GanttAnswer <==> Contains(q, "gantt chart"))
      && (r == AgileAnswer <==> !Contains(q, "gantt chart") && Contains(q, "agile"))
      && (r == SprintAnswer <==> !Contains(q, "gantt chart") && !Contains(q, "agile") && Contains(q, "sprint"))
      && (r == CriticalPathAnswer <==>
            !Contains(q, "gantt chart") && !Contains(q, "agile") && !Contains(q, "sprint")
            && Contains(q, "critical path"))
      && (r == MilestoneAnswer <==>
            !Contains(q, "gantt chart") && !Contains(q, "agile") && !Contains(q, "sprint")
            && !Contains(q, "critical path") && Contains(q, "milestone"))
      && (r == DefaultAnswer <==>
            !Contains(q, "gantt chart") && !Contains(q, "agile") && !Contains(q, "sprint")
            && !Contains(q, "critical path") && !Contains(q, "milestone"))
  {
    AnswersDistinct();
  }

  /** Only the lowercased question matters: changing the case of its letters never changes the answer. */
  lemma HardcodedAnswerIgnoresCase(a: string, b: string)
    requires SameUpToCase(a, b)
    ensures HardcodedAnswer(a) == HardcodedAnswer(b)
  {
    SameUpToCaseLower(a, b);
  }

  /** Lowercasing the question first gives the same answer. */
  lemma HardcodedAnswerOfLower(question: string)
    ensures HardcodedAnswer(Lower(question)) == HardcodedAnswer(question)
  {
    LowerIdempotent(question);
  }

  // ---------------------------------------------------------------------
  // The sample questions of the demo, each with its lowercase form `q`. The
  // literals are passed as parameters, which keeps the verifier from
  // unfolding `Lower` and `Contains` on them.

  /** A question each of whose characters lowercases to the uncapitalised character of `q` at its place. */
  lemma LowersTo(question: string, q: string)
    requires |question| == |q|
    requires forall i :: 0 <= i < |q| ==> LowerChar(question[i]) == q[i] && !IsUpper(q[i])
    ensures Lower(question) == q
  {
    assert SameUpToCase(question, q);
    SameUpToCaseLower(question, q);
    LowerUnchanged(q);
  }

  /** The lowercased Gantt question contains "gantt chart". */
  lemma GanttKeywords(q: string)
    requires q == "what is a gantt chart?"
    ensures Contains(q, "gantt chart")
  {
    ContainsAt(q, "gantt chart", 10);
  }

  lemma GanttLowered(question: string, q: string)
    requires question == "What is a Gantt chart?" && q == "what is a gantt chart?"
    ensures Lower(question) == q
  {
    LowersTo(question, q);
  }

  /** The sample question "What is a Gantt chart?" and the answer it gets. */
  lemma GanttExample(question: string, q: string)
    requires question == "What is a Gantt chart?" && q == "what is a gantt chart?"
    ensures HardcodedAnswer(question) == GanttAnswer
  {
    GanttLowered(question, q);
    GanttKeywords(q);
  }

  /** The lowercased agile question lacks "gantt chart" and contains "agile". */
  lemma AgileKeywords(q: string)
    requires q == "tell me about agile methodology."
    ensures !Contains(q, "gantt chart") && Contains(q, "agile")
  {
    MissingPair(q, "gantt chart", 3);
    ContainsAt(q, "agile", 14);
  }

  lemma AgileLowered(question: string, q: string)
    requires question == "Tell me about Agile methodology." && q == "tell me about agile methodology."
    ensures Lower(question) == q
  {
    LowersTo(question, q);
  }

  /** The sample question "Tell me about Agile methodology." and the answer it gets. */
  lemma AgileExample(question: string, q: string)
    requires question == "Tell me about Agile methodology." && q == "tell me about agile methodology."
    ensures HardcodedAnswer(question) == AgileAnswer
  {
    AgileLowered(question, q);
    AgileKeywords(q);
  }

  /** The lowercased sprint question lacks the first two keywords and contains "sprint". */
  lemma SprintKeywords(q: string)
    requires q == "can you explain a sprint review?"
    ensures !Contains(q, "gantt chart") && !Contains(q, "agile") && Contains(q, "sprint")
  {
    MissingChar(q, "gantt chart", 0);
    MissingChar(q, "agile", 1);
    ContainsAt(q, "sprint", 18);
  }

  lemma SprintLowered(question: string, q: string)
    requires question == "Can you explain a sprint review?" && q == "can you explain a sprint review?"
    ensures Lower(question) == q
  {
    LowersTo(question, q);
  }

  /** The sample question "Can you explain a sprint review?" and the answer it gets. */
  lemma SprintExample(question: string, q: string)
    requires question == "Can you explain a sprint review?" && q == "can you explain a sprint review?"
    ensures HardcodedAnswer(question) == SprintAnswer
  {
    SprintLowered(question, q);
    SprintKeywords(q);
  }

  /** The lowercased milestone question lacks the first four keywords and contains "milestone". */
  lemma MilestoneKeywords(q: string)
    requires q == "what are key project milestones?"
    ensures !Contains(q, "gantt chart") && !Contains(q, "agile") && !Contains(q, "sprint") && !Contains(q, "critical path") && Contains(q, "milestone")
  {
    MissingChar(q, "gantt chart", 0);
    MissingChar(q, "agile", 1);
    MissingPair(q, "sprint", 0);
    MissingPair(q, "critical path", 0);
    ContainsAt(q, "milestone", 21);
  }

  lemma MilestoneLowered(question: string, q: string)
    requires question == "What are key project milestones?" && q == "what are key project milestones?"
    ensures Lower(question) == q
  {
    LowersTo(question, q);
  }

  /** The sample question "What are key project milestones?" and the answer it gets. */
  lemma MilestoneExample(question: string, q: string)
    requires question == "What are key project milestones?" && q == "what are key project milestones?"
    ensures HardcodedAnswer(question) == MilestoneAnswer
  {
    MilestoneLowered(question, q);
    MilestoneKeywords(q);
  }

  /** The lowercased risk-management question contains none of the five keywords. */
  lemma DefaultKeywords(q: string)
    requires q == "what is risk management in projects?"
    ensures !Contains(q, "gantt chart") && !Contains(q, "agile") && !Contains(q, "sprint") && !Contains(q, "critical path") && !Contains(q, "milestone")
  {
    MissingPair(q, "gantt chart", 3);
    MissingChar(q, "agile", 3);
    MissingPair(q, "sprint", 0);
    MissingChar(q, "critical path", 7);
    MissingChar(q, "milestone", 2);
  }

  lemma DefaultLowered(question: string, q: string)
    requires question == "What is risk management in projects?" && q == "what is risk management in projects?"
    ensures Lower(question) == q
  {
    LowersTo(question, q);
  }

  /** The sample question "What is risk management in projects?" and the answer it gets. */
  lemma DefaultExample(question: string, q: string)
    requires question == "What is risk management in projects?" && q == "what is risk management in projects?"
    ensures HardcodedAnswer(question) == DefaultAnswer
  {
    DefaultLowered(question, q);
    DefaultKeywords(q);
  }

  // ---------------------------------------------------------------------
  // The LLM answer

  const SystemPrompt: string := "You are an expert assistant specializing in program management."
  const KeyMissingMessage: string := "LLM API key not found. Please set the OPENAI_API_KEY environment variable."
  const ErrorPrefix: string := "An error occurred while fetching the answer from the LLM: "
  const NoContentError: string := "'NoneType' object has no attribute 'strip'"

  /** The two messages of one chat completion request. */
  datatype Request = Request(system: string, user: string)

  /** What a completion request gives back: message content, no content, or an exception. */
  datatype Reply = Content(text: string) | NoContent | Raised(error: string)

  /** The answer text together with the requests that produced it. */
  datatype Answer = Answer(text: string, requests: seq<Request>)

  /** The client exists when `OPENAI_API_KEY` is set to a non-empty value. */
  predicate ClientConfigured(apiKey: Option<string>) {
    apiKey.Some? && apiKey.value != ""
  }

  /**
   * `get_llm_answer`, with the environment variable and the completion
   * endpoint as parameters.
   */
  function LlmAnswer(apiKey: Option<string>, question: string, complete: Request -> Reply): (r: Answer)
    ensures !ClientConfigured(apiKey) ==> r == Answer(KeyMissingMessage, [])
    ensures ClientConfigured(apiKey) ==> r.requests == [Request(SystemPrompt, question)]
    ensures ClientConfigured(apiKey) && complete(Request(SystemPrompt, question)).Content? ==>
      r.text == Strip(complete(Request(SystemPrompt, question)).text, IsSpace)
    ensures ClientConfigured(apiKey) && !complete(Request(SystemPrompt, question)).Content? ==>
      ErrorPrefix <= r.text
  {
    if !ClientConfigured(apiKey) then Answer(KeyMissingMessage, [])
    else
      var request := Request(SystemPrompt, question);
      match complete(request)
      case Content(text) => Answer(Strip(text, IsSpace), [request])
      case NoContent => Answer(ErrorPrefix + NoContentError, [request])
      case Raised(error) => Answer(ErrorPrefix + error, [request])
  }

  /** Without a key no request is made, whatever the endpoint would answer. */
  lemma NoKeyNoRequest(apiKey: Option<string>, question: string, complete: Request -> Reply, other: Request -> Reply)
    requires !ClientConfigured(apiKey)
    ensures LlmAnswer(apiKey, question, complete) == LlmAnswer(apiKey, question, other)
    ensures LlmAnswer(apiKey, question, complete).requests == []
  {
  }

  /** A successful answer is the reply with its surrounding whitespace removed. */
  lemma LlmAnswerTrimmed(apiKey: Option<string>, question: string, complete: Request -> Reply)
    requires ClientConfigured(apiKey) && complete(Request(SystemPrompt, question)).Content?
    ensures var t := LlmAnswer(apiKey, question, complete).text;
      t != [] ==> !IsSpace(t[0]) && !IsSpace(t[|t| - 1])
  {
  }
}
