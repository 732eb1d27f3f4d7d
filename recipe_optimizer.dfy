/**
 * The evaluator-optimizer workflow: a chef agent proposes a recipe, a
 * nutritionist agent evaluates it, and the evaluation is fed back to the chef
 * until it reports that every constraint passed or the attempts run out.
 * Both agents are one opaque chat function.
 */
module RecipeOptimizer {
  import opened Wrappers
  import opened Text

  const MaxRetries: nat := 5

  datatype RecipeRequest = RecipeRequest(baseDish: string, constraints: seq<string>)

  /** The request the workflow runs on. */
  const ExampleRequest: RecipeRequest := RecipeRequest("pasta", [
    "gluten-free",
    "vegan",
    "under 500 calories per serving",
    "high protein (>15g per serving)",
    "no coconut",
    "taste must be rated 7/10 or higher"
  ])

  /** One chat completion request: the system message and the user prompt. */
  datatype Call = Call(system: string, user: string)

  // The prompt texts below are the source's texts character for character,
  // written as concatenations of short literals, which the verifier handles
  // far more cheaply than a few long ones.

  const ChefSystem: string :=
    "You are an " + "innovative " + "and highly " + "skilled " + "chef, " + "renowned " + "for "
    + "creating "
    + "delicious " + "recipes " + "that also " + "meet " + "specific " + "dietary and "
    + "nutritional " + "targets. "
    + "You are " + "good at " + "interpreting " + "user " + "requests " + "and also at "
    + "refining " + "your "
    + "creations " + "based on " + "precise " + "feedback.\n\n"
    + "IMPORTANT OUTPUT RULES:\n"
    + "- Output " + "ONLY the " + "recipe " + "content in " + "the " + "structured " + "format "
    + "requested.\n"
    + "- Do NOT " + "include " + "conversational " + "filler, " + "greetings, " + "or "
    + "follow-up " + "questions "
    + "(e.g., no " + "'Absolutely!', " + "no 'Would " + "you like me " + "to " + "adjust...').\n"
    + "- Start " + "directly " + "with the " + "recipe name."

  const NutritionistSystem: string :=
    "You are an " + "extremely " + "precise " + "nutrition " + "and dietary " + "compliance "
    + "evaluator.\n\n"
    + "PROCESS " + "\U{2014} " + "For EACH " + "constraint " + "you MUST " + "follow "
    + "these two " + "steps:\n"
    + "  Step 1 " + "(REASONING): " + "Compare the " + "recipe's " + "actual " + "value to "
    + "the " + "constraint " + "threshold. "
    + "Write your " + "comparison " + "explicitly " + "(e.g., '16g " + "> 15g').\n"
    + "  Step 2 " + "(VERDICT): " + "Based ONLY " + "on the " + "reasoning " + "above, " + "write "
    + "PASSED or " + "FAILED.\n\n"
    + "STRICT RULES:\n"
    + "- NEVER " + "write the " + "VERDICT " + "before the " + "REASONING.\n"
    + "- If the " + "numeric " + "value meets " + "or exceeds " + "the " + "threshold, "
    + "the verdict " + "is PASSED. "
    + "Example: " + "16g protein " + "> 15g " + "requirement " + "\U{2192} " + "PASSED.\n"
    + "- Judge " + "based on " + "what the " + "recipe " + "ACTUALLY " + "contains, " + "not "
    + "hypothetical " + "concerns. "
    + "Nutritional " + "yeast IS " + "vegan. " + "Standard " + "plant " + "ingredients " + "ARE "
    + "gluten-free " + "unless " + "stated " + "otherwise.\n"
    + "- 'Overall " + "Status' " + "MUST be " + "logically " + "consistent: " + "if ANY "
    + "VERDICT is " + "FAILED, "
    + "Overall Status MUST be FAILED.\n"
    + "- Use ONLY " + "the exact " + "output " + "format " + "specified. " + "No extra "
    + "commentary."

  // ---------------------------------------------------------------------
  // The chef's prompt

  /** Python truthiness of the optional feedback: `None` and `""` are false. */
  predicate Truthy(feedback: Option<string>) {
    feedback.Some? && feedback.value != ""
  }

  function RequestSentence(request: RecipeRequest): string {
    "Create a '" + request.baseDish + "' recipe " + "that meets " + "ALL of the " + "following "
    + "constraints: "
    + Join(", ", request.constraints) + "."
  }

  const FirstAttemptPhrase: string := "This is the first attempt."

  const FirstAttemptNote: string := "\n" + FirstAttemptPhrase

  const RevisionIntro: string :=
    "\n\nIMPORTANT: " + "Your " + "previous " + "attempt had " + "issues. "
    + "Please " + "revise the " + "recipe " + "based on " + "this " + "specific " + "feedback:\n"

  const RevisionOutro: string := "\nEnsure " + "all " + "original " + "constraints " + "AND this "
    + "feedback " + "are " + "addressed."

  function RevisionNote(feedback: string): string {
    RevisionIntro + feedback + RevisionOutro
  }

  function FeedbackNote(feedback: Option<string>): string {
    if Truthy(feedback) then RevisionNote(feedback.value) else FirstAttemptNote
  }

  const SectionsText: string :=
    "\n\nProvide " + "EXACTLY " + "these " + "sections:\n"
    + "1. " + "**Name:** A " + "creative " + "name for " + "the dish\n"
    + "2. " + "**Ingredients:** " + "A list with " + "quantities\n"
    + "3. " + "**Instructions:** " + "Step-by-step\n"
    + "4. " + "**Estimated " + "Calories:** " + "per serving " + "(number)\n"
    + "5. " + "**Estimated " + "Protein:** " + "grams per " + "serving " + "(number)\n"
    + "6. **Taste " + "Profile:** " + "A short " + "description"

  /** The user prompt of `create_recipe`. */
  function CreatorPrompt(request: RecipeRequest, feedback: Option<string>): string {
    RequestSentence(request) + FeedbackNote(feedback) + SectionsText
  }

  /** `create_recipe`: the prompt is built piece by piece, then sent to the chef. */
  method CreateRecipe(request: RecipeRequest, feedback: Option<string>, chat: Call -> string)
    returns (recipe: string)
    ensures recipe == chat(Call(ChefSystem, CreatorPrompt(request, feedback)))
    ensures recipe == ChefAgent(request, chat)(feedback)
  {
    var constraintsStr := Join(", ", request.constraints);
    var userPrompt := "Create a '" + request.baseDish + "' recipe " + "that meets " + "ALL of the "
      + "following " + "constraints: "
      + constraintsStr + ".";
    if Truthy(feedback) {
      userPrompt := userPrompt + RevisionNote(feedback.value);
    } else {
      userPrompt := userPrompt + FirstAttemptNote;
    }
    userPrompt := userPrompt + SectionsText;
    recipe := chat(Call(ChefSystem, userPrompt));
  }

  /** The note says "This is the first attempt." exactly when the feedback is falsy. */
  lemma FeedbackNoteCases(feedback: Option<string>)
    ensures FeedbackNote(feedback) == FirstAttemptNote <==> !Truthy(feedback)
    ensures !Truthy(feedback) ==> Contains(FeedbackNote(feedback), FirstAttemptPhrase)
    ensures Truthy(feedback) ==> Contains(FeedbackNote(feedback), feedback.value)
  {
    if Truthy(feedback) {
      ContainsSelf(feedback.value);
      RevisionNoteContains(feedback.value, feedback.value);
      assert |FirstAttemptNote| == 27;
      assert |RevisionNote(feedback.value)| > 27;
    } else {
      ContainsSelf(FirstAttemptPhrase);
      ContainsInSuffix("\n", FirstAttemptPhrase, FirstAttemptPhrase);
    }
  }

  /** Whatever the feedback contains, the revision note contains. */
  lemma RevisionNoteContains(feedback: string, sub: string)
    requires Contains(feedback, sub)
    ensures Contains(RevisionNote(feedback), sub)
  {
    ContainsInMiddle(RevisionIntro, feedback, RevisionOutro, sub);
  }

  /** Whatever the note contains, the prompt contains. */
  lemma CreatorPromptHasNote(request: RecipeRequest, feedback: Option<string>, sub: string)
    requires Contains(FeedbackNote(feedback), sub)
    ensures Contains(CreatorPrompt(request, feedback), sub)
  {
    ContainsInSuffix(RequestSentence(request), FeedbackNote(feedback), sub);
    ContainsInPrefix(RequestSentence(request) + FeedbackNote(feedback), SectionsText, sub);
  }

  /**
   * The prompt carries "This is the first attempt." when the feedback is
   * falsy, and the feedback text verbatim when it is truthy.
   */
  lemma CreatorPromptFeedback(request: RecipeRequest, feedback: Option<string>)
    ensures !Truthy(feedback) ==> Contains(CreatorPrompt(request, feedback), FirstAttemptPhrase)
    ensures Truthy(feedback) ==> Contains(CreatorPrompt(request, feedback), feedback.value)
  {
    FeedbackNoteCases(feedback);
    if Truthy(feedback) {
      CreatorPromptHasNote(request, feedback, feedback.value);
    } else {
      CreatorPromptHasNote(request, feedback, FirstAttemptPhrase);
    }
  }

  /**
   * Feedback that itself contains the phrase puts it in the prompt even
   * though the feedback is truthy: the phrase marks a first attempt only in
   * the note, not in the whole prompt.
   */
  lemma FirstAttemptPhraseFromFeedback(request: RecipeRequest, feedback: string)
    requires Contains(feedback, FirstAttemptPhrase)
    ensures Truthy(Some(feedback))
    ensures Contains(CreatorPrompt(request, Some(feedback)), FirstAttemptPhrase)
  {
    assert feedback != "" by {
      var i :| 0 <= i <= |feedback| && FirstAttemptPhrase <= feedback[i..];
      assert |FirstAttemptPhrase| > 0;
    }
    RevisionNoteContains(feedback, FirstAttemptPhrase);
    CreatorPromptHasNote(request, Some(feedback), FirstAttemptPhrase);
  }

  /** Every constraint appears in the chef's prompt, joined with ", ". */
  lemma CreatorPromptConstraints(request: RecipeRequest, feedback: Option<string>, k: nat)
    requires k < |request.constraints|
    ensures Contains(CreatorPrompt(request, feedback), request.constraints[k])
  {
    var c := request.constraints[k];
    var joined := Join(", ", request.constraints);
    JoinContains(", ", request.constraints, k);
    var pre := "Create a '" + request.baseDish + "' recipe " + "that meets " + "ALL of the "
      + "following " + "constraints: ";
    ContainsInSuffix(pre, joined, c);
    ContainsInPrefix(pre + joined, ".", c);
    ContainsInPrefix(RequestSentence(request), FeedbackNote(feedback), c);
    ContainsInPrefix(RequestSentence(request) + FeedbackNote(feedback), SectionsText, c);
  }

  // ---------------------------------------------------------------------
  // The nutritionist's prompt

  /** The line for the constraint at index `i`: `"  {i+1}. {c}"`. */
  function NumberedLine(i: nat, c: string): string {
    "  " + Decimal(i + 1) + ". " + c
  }

  function NumberedLines(cs: seq<string>): (r: seq<string>)
    ensures |r| == |cs|
    ensures forall i :: 0 <= i < |cs| ==> r[i] == NumberedLine(i, cs[i])
  {
    seq(|cs|, i requires 0 <= i < |cs| => NumberedLine(i, cs[i]))
  }

  /** `numbered_constraints` of `evaluate`. */
  function NumberedConstraints(cs: seq<string>): string {
    Join("\n", NumberedLines(cs))
  }

  /**
   * With no newline inside a constraint, the list splits into exactly one
   * line per constraint, in order, and each line's number reads back as its
   * position plus one.
   */
  lemma NumberedConstraintsLines(cs: seq<string>)
    requires |cs| >= 1
    requires forall k :: 0 <= k < |cs| ==> '\n' !in cs[k]
    ensures Split(NumberedConstraints(cs), '\n') == NumberedLines(cs)
    ensures forall i :: 0 <= i < |cs| ==> Split(NumberedConstraints(cs), '\n')[i] == NumberedLine(i, cs[i])
  {
    var lines := NumberedLines(cs);
    forall k | 0 <= k < |lines|
      ensures '\n' !in lines[k]
    {
      var d := Decimal(k + 1);
      assert lines[k] == "  " + d + ". " + cs[k];
      assert forall j :: 0 <= j < |d| ==> IsDigit(d[j]);
    }
    SplitJoin(lines, '\n');
  }

  /** The number on a line is the position of its constraint plus one, and the constraint follows it. */
  lemma NumberedLineParts(i: nat, c: string)
    ensures var line, d := NumberedLine(i, c), Decimal(i + 1);
      && line[..2] == "  "
      && line[2..2 + |d|] == d
      && DecimalValue(line[2..2 + |d|]) == i + 1
      && line[2 + |d|..] == ". " + c
  {
    DecimalRoundTrip(i + 1);
    var line, d := NumberedLine(i, c), Decimal(i + 1);
    assert line == "  " + d + (". " + c);
    assert line[2..2 + |d|] == d;
  }

  const EvaluatorIntro: string :=
    "Evaluate " + "the " + "following " + "RECIPE " + "against the " + "specified "
    + "constraints.\n\n"
    + "RECIPE:\n"

  function ConstraintsHeading(n: nat): string {
    "\n\nCONSTRAINTS TO EVALUATE (" + Decimal(n) + " total " + "\U{2014} " + "you MUST "
    + "evaluate " + "ALL " + Decimal(n) + "):\n"
  }

  function EvaluatorInstructions(n: nat): string {
    "\n\n"
    + "OUTPUT " + "FORMAT " + "\U{2014} " + "For each " + "constraint, " + "write " + "exactly TWO "
    + "lines:\n"
    + "REASONING: " + "<constraint> " + "\U{2014} " + "<recipe " + "value> vs " + "<threshold>. "
    + "<value> " + "<comparison " + "operator> " + "<threshold> " + "= " + "<true/false>.\n"
    + "VERDICT: " + "<constraint " + "verbatim>: " + "PASSED\n"
    + "or\n"
    + "VERDICT: " + "<constraint " + "verbatim>: " + "FAILED - " + "<reason>. " + "<fix "
    + "suggestion>.\n\n"
    + "=== FEW-SHOT EXAMPLES ===\n\n"
    + "REASONING: " + "high " + "protein " + "(>15g per " + "serving) " + "\U{2014} " + "Recipe "
    + "estimates " + "16g per " + "serving. " + "16g > 15g = " + "true.\n"
    + "VERDICT: " + "high " + "protein " + "(>15g per " + "serving): " + "PASSED\n\n"
    + "REASONING: " + "under 500 " + "calories " + "per serving " + "\U{2014} " + "Recipe "
    + "estimates " + "650 kcal. " + "650 < 500 = " + "false.\n"
    + "VERDICT: " + "under 500 " + "calories " + "per " + "serving: " + "FAILED - " + "Estimated "
    + "650 " + "calories. " + "Suggest " + "reducing " + "oil by " + "half.\n\n"
    + "REASONING: " + "no coconut " + "\U{2014} " + "Recipe " + "ingredients " + "do not "
    + "include " + "coconut in " + "any form.\n"
    + "VERDICT: no coconut: PASSED\n\n"
    + "=== END EXAMPLES ===\n\n"
    + "After evaluating ALL " + Decimal(n) + " " + "constraints, " + "you MUST " + "write this "
    + "MANDATORY " + "line:\n"
    + "Taste Rating: <N>/10\n\n"
    + "SELF-CHECK: " + "Re-read all " + "VERDICT " + "lines " + "above. " + "Count how "
    + "many say " + "FAILED.\n"
    + "If count == " + "0, write: " + "Overall " + "Status: " + "PASSED\n"
    + "If count >= " + "1, write: " + "Overall " + "Status: " + "FAILED"
  }

  /** The user prompt of `evaluate`. */
  function EvaluatorPrompt(recipe: string, cs: seq<string>): string {
    EvaluatorIntro + recipe + (ConstraintsHeading(|cs|) + NumberedConstraints(cs) + EvaluatorInstructions(|cs|))
  }

  /** The evaluator sees the recipe verbatim and the numbered list of every constraint. */
  lemma EvaluatorPromptContents(recipe: string, cs: seq<string>)
    ensures Contains(EvaluatorPrompt(recipe, cs), recipe)
    ensures Contains(EvaluatorPrompt(recipe, cs), NumberedConstraints(cs))
  {
    var head, list, tail := ConstraintsHeading(|cs|), NumberedConstraints(cs), EvaluatorInstructions(|cs|);
    ContainsMiddle(EvaluatorIntro, recipe, head + list + tail);
    ContainsSelf(list);
    EvaluatorPromptHasList(recipe, cs, list);
  }

  /** Whatever the numbered list contains, the evaluator's prompt contains. */
  lemma EvaluatorPromptHasList(recipe: string, cs: seq<string>, sub: string)
    requires Contains(NumberedConstraints(cs), sub)
    ensures Contains(EvaluatorPrompt(recipe, cs), sub)
  {
    var head, list, tail := ConstraintsHeading(|cs|), NumberedConstraints(cs), EvaluatorInstructions(|cs|);
    ContainsInMiddle(head, list, tail, sub);
    ContainsInSuffix(EvaluatorIntro + recipe, head + list + tail, sub);
  }

  /** Each constraint reaches the evaluator, on its own numbered line. */
  lemma EvaluatorPromptConstraint(recipe: string, cs: seq<string>, k: nat)
    requires k < |cs|
    ensures Contains(EvaluatorPrompt(recipe, cs), NumberedLine(k, cs[k]))
  {
    JoinContains("\n", NumberedLines(cs), k);
    EvaluatorPromptHasList(recipe, cs, NumberedLine(k, cs[k]));
  }

  /** `evaluate`: the prompt is built from the recipe and the numbered constraints, then sent to the nutritionist. */
  method Evaluate(recipe: string, request: RecipeRequest, chat: Call -> string) returns (evaluation: string)
    ensures evaluation == chat(Call(NutritionistSystem, EvaluatorPrompt(recipe, request.constraints)))
    ensures evaluation == NutritionistAgent(request, chat)(recipe)
  {
    var n := |request.constraints|;
    var numbered := NumberedConstraints(request.constraints);
    var userPrompt := EvaluatorIntro + recipe + (ConstraintsHeading(n) + numbered + EvaluatorInstructions(n));
    evaluation := chat(Call(NutritionistSystem, userPrompt));
  }

  // ---------------------------------------------------------------------
  // The loop

  /** The stopping test: "overall status: passed" in the lowercased evaluation. */
  predicate Passed(evaluation: string) {
    Contains(Lower(evaluation), "overall status: passed")
  }

  /** The test ignores the case of the status line. */
  lemma PassedIgnoresCase(a: string, b: string)
    requires SameUpToCase(a, b)
    ensures Passed(a) <==> Passed(b)
  {
    SameUpToCaseLower(a, b);
  }

  /** One round: the feedback the chef got, its recipe, and the nutritionist's evaluation. */
  datatype Attempt = Attempt(feedback: Option<string>, recipe: string, evaluation: string)

  /** The feedback the attempt at index `i` is given: none first, then the previous evaluation. */
  function FeedbackFor(trace: seq<Attempt>, i: nat): Option<string>
    requires i <= |trace|
  {
    if i == 0 then None else Some(trace[i - 1].evaluation)
  }

  /** The chef agent: its reply to `create_recipe`'s call for the given feedback. */
  function ChefAgent(request: RecipeRequest, chat: Call -> string): Option<string> -> string {
    feedback => chat(Call(ChefSystem, CreatorPrompt(request, feedback)))
  }

  /** The nutritionist agent: its reply to `evaluate`'s call for the given recipe. */
  function NutritionistAgent(request: RecipeRequest, chat: Call -> string): string -> string {
    recipe => chat(Call(NutritionistSystem, EvaluatorPrompt(recipe, request.constraints)))
  }

  /** The attempt's recipe is the chef's reply to its feedback. */
  predicate Cooked(chef: Option<string> -> string, a: Attempt) {
    a.recipe == chef(a.feedback)
  }

  /** The attempt's evaluation is the nutritionist's reply to its recipe. */
  predicate Judged(judge: string -> string, a: Attempt) {
    a.evaluation == judge(a.recipe)
  }

  /** An attempt: the chef's reply to its feedback, and the nutritionist's reply to that recipe. */
  predicate Follows(chef: Option<string> -> string, judge: string -> string, a: Attempt) {
    Cooked(chef, a) && Judged(judge, a)
  }

  /** Each attempt got the feedback of the attempt before it. */
  predicate Chained(trace: seq<Attempt>) {
    forall i :: 0 <= i < |trace| ==> trace[i].feedback == FeedbackFor(trace, i)
  }

  /** Every attempt follows from the feedback of the attempt before it. */
  predicate ValidTrace(chef: Option<string> -> string, judge: string -> string, trace: seq<Attempt>) {
    && (forall i :: 0 <= i < |trace| ==> Follows(chef, judge, trace[i]))
    && Chained(trace)
  }

  /** A valid trace extended by an attempt that follows from its last evaluation. */
  lemma ValidTraceSnoc(chef: Option<string> -> string, judge: string -> string, trace: seq<Attempt>, a: Attempt)
    requires ValidTrace(chef, judge, trace)
    requires Follows(chef, judge, a) && a.feedback == FeedbackFor(trace, |trace|)
    ensures ValidTrace(chef, judge, trace + [a])
  {
    var t := trace + [a];
    forall i | 0 <= i < |t|
      ensures Follows(chef, judge, t[i]) && t[i].feedback == FeedbackFor(t, i)
    {
      if i < |trace| {
        assert t[i] == trace[i];
      } else {
        assert t[i] == a;
      }
      if i > 0 {
        assert t[i - 1] == trace[i - 1];
      }
    }
  }

  /** The loop has stopped: at the first attempt that passed, or after all of them. */
  predicate Finished(trace: seq<Attempt>) {
    && 1 <= |trace| <= MaxRetries
    && (forall i :: 0 <= i < |trace| - 1 ==> !Passed(trace[i].evaluation))
    && (|trace| < MaxRetries ==> Passed(trace[|trace| - 1].evaluation))
  }

  /**
   * `optimize_recipe`: up to `MaxRetries` rounds of recipe and evaluation,
   * each fed the previous evaluation, stopping at the first that passed.
   * `trace` records the rounds, one per call of each agent.
   */
  method OptimizeRecipe(request: RecipeRequest, chat: Call -> string)
    returns (recipe: string, evaluation: string, attempts: nat, trace: seq<Attempt>)
    ensures 1 <= attempts <= MaxRetries && |trace| == attempts
    ensures ValidTrace(ChefAgent(request, chat), NutritionistAgent(request, chat), trace) && Finished(trace)
    ensures recipe == trace[attempts - 1].recipe && evaluation == trace[attempts - 1].evaluation
  {
    var chef, judge := ChefAgent(request, chat), NutritionistAgent(request, chat);
    var feedback: Option<string> := None;
    recipe, evaluation, trace := "", "", [];
    for attempt := 0 to MaxRetries
      invariant |trace| == attempt
      invariant ValidTrace(chef, judge, trace)
      invariant forall i :: 0 <= i < attempt ==> !Passed(trace[i].evaluation)
      invariant feedback == FeedbackFor(trace, attempt)
      invariant attempt > 0 ==> recipe == trace[attempt - 1].recipe && evaluation == trace[attempt - 1].evaluation
    {
      recipe := CreateRecipe(request, feedback, chat);
      evaluation := Evaluate(recipe, request, chat);
      ValidTraceSnoc(chef, judge, trace, Attempt(feedback, recipe, evaluation));
      trace := trace + [Attempt(feedback, recipe, evaluation)];
      if Passed(evaluation) {
        return recipe, evaluation, attempt + 1, trace;
      }
      feedback := Some(evaluation);
    }
    attempts := MaxRetries;
  }

  /**
   * The contract of `OptimizeRecipe` leaves no choice: two finished valid
   * traces for the same agents are equal.
   */
  lemma {:induction false} FinishedTraceUnique(chef: Option<string> -> string, judge: string -> string, t: seq<Attempt>, u: seq<Attempt>)
    requires ValidTrace(chef, judge, t) && Finished(t)
    requires ValidTrace(chef, judge, u) && Finished(u)
    ensures t == u
  {
    var n := if |t| < |u| then |t| else |u|;
    for k := 0 to n
      invariant forall i :: 0 <= i < k ==> t[i] == u[i]
    {
      assert t[k].feedback == FeedbackFor(t, k) == FeedbackFor(u, k) == u[k].feedback;
      assert Follows(chef, judge, t[k]) && Follows(chef, judge, u[k]);
    }
  }
}
