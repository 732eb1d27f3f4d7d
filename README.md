# Agentic workflow exercises: the deterministic core in Dafny

The repository is a set of small Python programs built around a hosted
language model. Around those calls sit a few pieces of plain,
deterministic logic, and this project models them and proves what they
promise:

- **The memory-entry generator** (`scripts/new_memory_entry.py`).
  - `kebab_case` turns a context string into a slug.
  - `build_frontmatter` renders a YAML-style header.
  - `main` does the `{{TOKEN}}` substitution and has three exit codes:
    2 for an empty slug, 3 when the target file already exists, and 0 when
    it writes the entry.
- **The program-management knowledge agent**
  (`2_Agentic_Workflows/exercises/1-starter.py`).
  - `get_hardcoded_answer` lowercases the question and tests five keywords
    in a fixed order.
  - `get_llm_answer` short-circuits when no API key is configured.
- **The evaluator-optimizer loop**
  (`2_Agentic_Workflows/exercises/7-agentic-evaluator-optimizer.py`).
  - The chef's prompt is built step by step, and the nutritionist's prompt
    carries the numbered list of constraints.
  - `optimize_recipe` makes at most `MAX_RETRIES = 5` rounds. It threads
    each evaluation into the next round as feedback and stops at the first
    evaluation that contains "overall status: passed", ignoring case.
- **The retail router** (`2_Agentic_Workflows/exercises/5-agentic-routing.py`).
  - `routing_agent` classifies the query and strips the label.
  - It dispatches on an exact, case-sensitive match against three labels,
    and falls back to a fixed apology.

Every model call is a function-valued parameter. The model records the calls
it makes as values:
- a list of requests in `LlmAnswer`;
- a trace of rounds in `OptimizeRecipe`;
- the sequence of agent calls in `RoutingAgent`.

This makes "which agents were asked, with what, in which order" something
the contracts can state.

Files:
- `wrappers.dfy`: `Option`, for Python's `None`.
- `text.dfy`: the Python string built-ins the core relies on, with their
  laws:
  - `str.lower` (on ASCII letters), `str.strip`, `re.sub` of a class run,
    `in`, `str.join`, `str.split`, `str.replace` and `str(n)`.
- `memory_entry.dfy`: the memory-entry generator.
  - `main` becomes the imperative methods `NewMemoryEntry` and
    `EntryContent`.
  - The file system is a map from path to contents.
- `knowledge_agent.dfy`: the knowledge agent.
- `recipe_optimizer.dfy`: the evaluator-optimizer.
  - `create_recipe`, `evaluate` and `optimize_recipe` are methods.
  - The loop is proved against a trace specification (`ValidTrace`,
    `Finished`).
  - The prompt texts are concatenations of short literals that spell out
    the source's texts exactly.
- `retail_routing.dfy`: the router.

## Model

| member | source | states |
|---|---|---|
| Text.SubRuns | scripts/new_memory_entry.py:24-25 | `re.sub("[class]+", c, s)`: each maximal run of class characters becomes the one character `c`; the result is no longer than the input and starts with `c` or with the input's first character |
| Text.Contains | 2_Agentic_Workflows/exercises/1-starter.py:39-48 | Python's `sub in s`: `sub` starts at some position of `s` |
| Text.Join | scripts/new_memory_entry.py:41 | `sep.join(xs)`: `""` for no element, the element for one, otherwise the first element, `sep` and the join of the rest |
| Text.Split | scripts/new_memory_entry.py:41 | `s.split(sep)` for a one-character separator, never empty; the source does not call it, and the model uses it to state that joined lines come apart again |
| Text.Replace | scripts/new_memory_entry.py:83-88 | `s.replace(pat, rep)`: every non-overlapping occurrence, left to right; an empty pattern puts `rep` before every character and at the end |
| Text.Lower | scripts/new_memory_entry.py:24 | `str.lower` keeps the length and lowercases each ASCII capital, position by position |
| Text.LowerIdempotent | 2_Agentic_Workflows/exercises/1-starter.py:36 | lowercasing twice is lowercasing once |
| Text.LowerUnchanged | 2_Agentic_Workflows/exercises/1-starter.py:36 | a string without ASCII capitals is its own lower case |
| Text.SameUpToCaseLower | 2_Agentic_Workflows/exercises/1-starter.py:36 | two strings that differ only in letter case lowercase to the same string |
| Text.Strip | scripts/new_memory_entry.py:24-25 | `str.strip` leaves no stripped character at either end, and leaves a string unchanged when neither end is strippable |
| Text.StripIsSlice | scripts/new_memory_entry.py:24-25 | the stripped string is a slice of the input, and only strippable characters were cut from the two ends |
| Text.SubRunsChars | scripts/new_memory_entry.py:24-25 | substituting each run of a class by one character keeps every character property that the substitute and the kept characters share |
| Text.SubRunsNoRun | scripts/new_memory_entry.py:25 | after the substitution, no two neighbouring characters both belong to the class |
| Text.SubRunsSingles | scripts/new_memory_entry.py:24-25 | without a run of two, the substitution replaces each class character in place |
| Text.FilterSubRuns | scripts/new_memory_entry.py:24-25 | the substitution keeps the characters outside the class and the substitute, in order |
| Text.FilterStrip | scripts/new_memory_entry.py:24-25 | stripping keeps every character the strip set does not contain, in order |
| Text.FilterLower | scripts/new_memory_entry.py:24 | the letters and digits of the lowercased string are those of the input, lowercased |
| Text.JoinContains | 2_Agentic_Workflows/exercises/7-agentic-evaluator-optimizer.py:42 | `sep.join(xs)` contains every element of `xs` |
| Text.JoinAvoids | scripts/new_memory_entry.py:41 | a character in neither the separator nor any element is not in the join |
| Text.SplitJoin | scripts/new_memory_entry.py:41 | splitting a join on its one-character separator gives back the elements, if none of them contains the separator |
| Text.ReplaceAbsent | scripts/new_memory_entry.py:83-88 | `s.replace(pat, rep)` leaves a string without `pat` unchanged |
| Text.ReplaceLeftmost | scripts/new_memory_entry.py:83-88 | `s.replace(pat, rep)` replaces the leftmost occurrence first and then carries on after it |
| Text.FirstAtLeftmost | scripts/new_memory_entry.py:83-88 | the step-by-step first-occurrence test is equivalent to "occurs at `k` and nowhere before" |
| Text.Decimal | 2_Agentic_Workflows/exercises/7-agentic-evaluator-optimizer.py:99 | `str(n)` is a non-empty string of digits without a leading zero |
| Text.DecimalRoundTrip | 2_Agentic_Workflows/exercises/7-agentic-evaluator-optimizer.py:99 | reading `str(n)` back as a number gives `n` |
| MemoryEntry.KebabCase | scripts/new_memory_entry.py:22-26 | `kebab_case`: the collapsed string with hyphens stripped from both ends |
| MemoryEntry.Collapsed | scripts/new_memory_entry.py:24-25 | `text.strip().lower()`, then each run outside `[a-zA-Z0-9]` replaced by `-`, then each run of `-` by one `-` |
| MemoryEntry.CollapsedChars | scripts/new_memory_entry.py:24-25 | after both substitutions, only lowercase letters, digits and `-` remain, and no `--` |
| MemoryEntry.StripHyphensSlug | scripts/new_memory_entry.py:25 | `.strip("-")` of such a string is a slug, with no hyphen at either end |
| MemoryEntry.KebabCaseIsSlug | scripts/new_memory_entry.py:22-26 | `kebab_case` returns only `[a-z0-9-]`, never starts or ends with `-`, and never contains `--` |
| MemoryEntry.SlugUnchangedByLower | scripts/new_memory_entry.py:24 | a slug is unchanged by `.strip().lower()` |
| MemoryEntry.SlugUnchangedByHyphenate | scripts/new_memory_entry.py:24 | a slug is unchanged by the `[^a-zA-Z0-9]+` substitution |
| MemoryEntry.SlugUnchangedByCollapse | scripts/new_memory_entry.py:25 | a slug is unchanged by the `-+` substitution and by `.strip("-")` |
| MemoryEntry.KebabCaseFixesSlugs | scripts/new_memory_entry.py:22-26 | a slug is its own kebab case |
| MemoryEntry.KebabCaseIdempotent | scripts/new_memory_entry.py:22-26 | `kebab_case(kebab_case(x)) == kebab_case(x)` |
| MemoryEntry.HyphensKeepAlnums | scripts/new_memory_entry.py:24-25 | the two substitutions keep every ASCII letter and digit, in order |
| MemoryEntry.LoweredKeepsAlnums | scripts/new_memory_entry.py:24 | `.strip().lower()` keeps the letters and digits, lowercased, in order |
| MemoryEntry.CollapsedKeepsAlnums | scripts/new_memory_entry.py:24-25 | before the final strip, the letters and digits are the input's, lowercased |
| MemoryEntry.KebabCaseKeepsAlnums | scripts/new_memory_entry.py:22-26 | the letters and digits of the slug are exactly those of the input, lowercased, in order |
| MemoryEntry.EmptySlugIff | scripts/new_memory_entry.py:22-26 | the slug is empty exactly when the context has no ASCII letter or digit, so an empty, blank or all-punctuation context gives `""` |
| MemoryEntry.ExampleLowered | scripts/new_memory_entry.py:6 | `"readme scope"` is unchanged by `.strip().lower()` |
| MemoryEntry.ExampleHyphenated | scripts/new_memory_entry.py:24 | the substitution turns `"readme scope"` into `"readme-scope"` |
| MemoryEntry.ExampleSlug | scripts/new_memory_entry.py:6-8 | the usage example's context has the slug `readme-scope` |
| MemoryEntry.ExamplePath | scripts/new_memory_entry.py:8 | the slug `readme-scope` names `.github/agents/memory/readme-scope-agent-memory.md` |
| MemoryEntry.ReadmeScopeExample | scripts/new_memory_entry.py:6-8 | context `"readme scope"` gives slug `readme-scope` and the file `readme-scope-agent-memory.md` |
| MemoryEntry.TagsYaml | scripts/new_memory_entry.py:30 | `tags_yaml`: `[]` for no tags, otherwise the quoted tags joined by `, ` inside brackets |
| MemoryEntry.BuildFrontmatter | scripts/new_memory_entry.py:29-41 | `build_frontmatter`: the lines `---`, `agent:`, `date:`, `topic:`, `tags:`, `source:`, `---` and `""`, joined by newlines |
| MemoryEntry.Quoted | scripts/new_memory_entry.py:30 | each tag is wrapped in single quotes, in order |
| MemoryEntry.TagsYamlOneLine | scripts/new_memory_entry.py:30 | tags without a newline render to a `tags:` value without a newline |
| MemoryEntry.QuotedExample | scripts/new_memory_entry.py:6 | the usage example's tags quote to `'memory'`, `'conventions'`, `'bmad'` |
| MemoryEntry.TagsYamlExample | scripts/new_memory_entry.py:30 | no tags render as `[]`, and the example tags as `['memory', 'conventions', 'bmad']` |
| MemoryEntry.JoinEightLines | scripts/new_memory_entry.py:41 | joining the eight lines with `"\n"`, the last one empty, ends every line with a newline |
| MemoryEntry.FrontmatterText | scripts/new_memory_entry.py:29-41 | the front matter, written out: `---`, the five fields in order, `---`, each on its own line |
| MemoryEntry.FrontmatterDelimited | scripts/new_memory_entry.py:31-41 | the front matter starts with `---\n` and ends with `---\n` |
| MemoryEntry.FieldLine | scripts/new_memory_entry.py:31-40 | no line of the front matter holds a newline when no field does |
| MemoryEntry.FrontmatterLinesBack | scripts/new_memory_entry.py:29-41 | with no newline in any field, the front matter splits back into its eight lines |
| MemoryEntry.OutPath | scripts/new_memory_entry.py:62 | `.github/agents/memory/<slug>-agent-memory.md`, relative to the repository root |
| MemoryEntry.Template | scripts/new_memory_entry.py:67-79 | the template file's contents when the file exists, otherwise the fallback template with the four tokens |
| MemoryEntry.TagsLine | scripts/new_memory_entry.py:82 | `tags_line`: the tags joined by `, `, or `""` for no tags |
| MemoryEntry.Render | scripts/new_memory_entry.py:83-88 | the four `.replace` calls in the source's order: `{{DATE}}`, `{{TOPIC}}`, `{{TAGS}}`, `{{SOURCE}}` |
| MemoryEntry.RenderWithoutTokens | scripts/new_memory_entry.py:81-88 | a template with none of the four tokens is written out unchanged |
| MemoryEntry.OutPathInjective | scripts/new_memory_entry.py:62 | distinct slugs name distinct files, and no slug names the template file |
| MemoryEntry.EntryContent | scripts/new_memory_entry.py:90-96 | the content is the front matter, a newline and the rendered template with `--yaml`, and only the rendered template without it |
| MemoryEntry.NewMemoryEntry | scripts/new_memory_entry.py:57-100 | the exit code is 2 exactly for an empty slug and 3 exactly for an existing target, and nothing is written then; otherwise 0, a new file at the slug's path, with the content above |
| MemoryEntry.RunTwice | scripts/new_memory_entry.py:62-65 | a second run with the same context on the files the first left fails with 3 after a success, and repeats a failure |
| KnowledgeAgent.HardcodedAnswer | 2_Agentic_Workflows/exercises/1-starter.py:25-50 | the answer is always one of the six fixed strings |
| KnowledgeAgent.AnswersDistinct | 2_Agentic_Workflows/exercises/1-starter.py:40-50 | the six answers are pairwise different |
| KnowledgeAgent.HardcodedAnswerPriority | 2_Agentic_Workflows/exercises/1-starter.py:36-50 | each answer is given exactly when its keyword is in the lowercased question and no earlier keyword is, and the default exactly when none is |
| KnowledgeAgent.HardcodedAnswerIgnoresCase | 2_Agentic_Workflows/exercises/1-starter.py:36 | changing the case of letters in the question never changes the answer |
| KnowledgeAgent.HardcodedAnswerOfLower | 2_Agentic_Workflows/exercises/1-starter.py:36 | lowercasing the question first gives the same answer |
| KnowledgeAgent.GanttExample | 2_Agentic_Workflows/exercises/1-starter.py:39-40 | "What is a Gantt chart?" gets the Gantt answer |
| KnowledgeAgent.AgileExample | 2_Agentic_Workflows/exercises/1-starter.py:41-42 | "Tell me about Agile methodology." gets the Agile answer |
| KnowledgeAgent.MilestoneExample | 2_Agentic_Workflows/exercises/1-starter.py:47-48 | "What are key project milestones?" gets the milestone answer |
| KnowledgeAgent.DefaultExample | 2_Agentic_Workflows/exercises/1-starter.py:50 | "What is risk management in projects?" gets the default answer |
| KnowledgeAgent.SprintExample | 2_Agentic_Workflows/exercises/1-starter.py:43-44 | "Can you explain a sprint review?" gets the sprint answer |
| KnowledgeAgent.ClientConfigured | 2_Agentic_Workflows/exercises/1-starter.py:20-23 | a client exists exactly when `OPENAI_API_KEY` is set to a non-empty value |
| KnowledgeAgent.LlmAnswer | 2_Agentic_Workflows/exercises/1-starter.py:52-85 | with no key: the key-missing message and no request; with a key: one request with the system prompt and the question, then a stripped reply or an error message |
| KnowledgeAgent.NoKeyNoRequest | 2_Agentic_Workflows/exercises/1-starter.py:64-65 | without a key the answer does not depend on the endpoint, and no request is made |
| KnowledgeAgent.LlmAnswerTrimmed | 2_Agentic_Workflows/exercises/1-starter.py:82 | a successful answer has no white space at either end |
| RecipeOptimizer.CreatorPrompt | 2_Agentic_Workflows/exercises/7-agentic-evaluator-optimizer.py:41-60 | the user prompt of `create_recipe`: the request sentence, then the revision note around truthy feedback or `"\nThis is the first attempt."`, then the sections to provide |
| RecipeOptimizer.CreateRecipe | 2_Agentic_Workflows/exercises/7-agentic-evaluator-optimizer.py:28-72 | the reply is the chef's answer to the chef system prompt and the prompt built step by step with `+=` |
| RecipeOptimizer.FeedbackNoteCases | 2_Agentic_Workflows/exercises/7-agentic-evaluator-optimizer.py:44-51 | the note is "This is the first attempt." exactly when the feedback is falsy, and carries the feedback verbatim otherwise |
| RecipeOptimizer.RevisionNoteContains | 2_Agentic_Workflows/exercises/7-agentic-evaluator-optimizer.py:45-49 | whatever the feedback contains, the revision note contains |
| RecipeOptimizer.CreatorPromptHasNote | 2_Agentic_Workflows/exercises/7-agentic-evaluator-optimizer.py:43-60 | whatever the note contains, the chef's prompt contains |
| RecipeOptimizer.CreatorPromptFeedback | 2_Agentic_Workflows/exercises/7-agentic-evaluator-optimizer.py:44-51 | the prompt contains "This is the first attempt." when the feedback is falsy, and the feedback verbatim when it is truthy |
| RecipeOptimizer.FirstAttemptPhraseFromFeedback | 2_Agentic_Workflows/exercises/7-agentic-evaluator-optimizer.py:44-51 | truthy feedback that quotes the phrase puts it in the prompt too |
| RecipeOptimizer.CreatorPromptConstraints | 2_Agentic_Workflows/exercises/7-agentic-evaluator-optimizer.py:42-43 | every constraint appears in the chef's prompt |
| RecipeOptimizer.NumberedConstraints | 2_Agentic_Workflows/exercises/7-agentic-evaluator-optimizer.py:98-100 | `numbered_constraints`: the numbered lines joined by newlines |
| RecipeOptimizer.NumberedLines | 2_Agentic_Workflows/exercises/7-agentic-evaluator-optimizer.py:98-100 | one line `"  {i+1}. {c}"` per constraint, in order |
| RecipeOptimizer.NumberedConstraintsLines | 2_Agentic_Workflows/exercises/7-agentic-evaluator-optimizer.py:97-100 | with no newline inside a constraint, the numbered list splits into exactly those lines |
| RecipeOptimizer.NumberedLineParts | 2_Agentic_Workflows/exercises/7-agentic-evaluator-optimizer.py:99 | a line is two spaces, the number, `". "` and the constraint, and the number reads back as the position plus one |
| RecipeOptimizer.EvaluatorPrompt | 2_Agentic_Workflows/exercises/7-agentic-evaluator-optimizer.py:102-125 | the user prompt of `evaluate`: the introduction, the recipe, the heading with the constraint count, the numbered list and the output instructions |
| RecipeOptimizer.EvaluatorPromptContents | 2_Agentic_Workflows/exercises/7-agentic-evaluator-optimizer.py:102-106 | the evaluator's prompt contains the recipe verbatim and the whole numbered list |
| RecipeOptimizer.EvaluatorPromptHasList | 2_Agentic_Workflows/exercises/7-agentic-evaluator-optimizer.py:102-106 | whatever the numbered list contains, the evaluator's prompt contains |
| RecipeOptimizer.EvaluatorPromptConstraint | 2_Agentic_Workflows/exercises/7-agentic-evaluator-optimizer.py:98-106 | each constraint reaches the evaluator on its own numbered line |
| RecipeOptimizer.Evaluate | 2_Agentic_Workflows/exercises/7-agentic-evaluator-optimizer.py:78-137 | the evaluation is the nutritionist's answer to its system prompt and to the prompt built from the recipe and the numbered constraints |
| RecipeOptimizer.Passed | 2_Agentic_Workflows/exercises/7-agentic-evaluator-optimizer.py:151 | the stopping test: `"overall status: passed"` occurs in the lowercased evaluation |
| RecipeOptimizer.PassedIgnoresCase | 2_Agentic_Workflows/exercises/7-agentic-evaluator-optimizer.py:151 | the stopping test does not depend on the letter case of the evaluation |
| RecipeOptimizer.ValidTraceSnoc | 2_Agentic_Workflows/exercises/7-agentic-evaluator-optimizer.py:144-155 | a round made from the previous round's evaluation extends a valid trace |
| RecipeOptimizer.OptimizeRecipe | 2_Agentic_Workflows/exercises/7-agentic-evaluator-optimizer.py:139-159 | 1 to 5 rounds. The first gets no feedback, each later one the previous evaluation. It stops at the first passing evaluation or after 5, and returns the last round's recipe, evaluation and count |
| RecipeOptimizer.FinishedTraceUnique | 2_Agentic_Workflows/exercises/7-agentic-evaluator-optimizer.py:139-159 | two finished valid traces for the same reply functions are equal, so `OptimizeRecipe`'s contract fixes its outputs |
| RetailRouting.TaskType | 2_Agentic_Workflows/exercises/5-agentic-routing.py:87 | the classifier's reply with surrounding whitespace stripped |
| RetailRouting.RoutingAgent | 2_Agentic_Workflows/exercises/5-agentic-routing.py:71-105 | one classification call first; the apology and no agent call exactly when the stripped label is unknown; otherwise the last agent's reply |
| RetailRouting.RouteProductResearch | 2_Agentic_Workflows/exercises/5-agentic-routing.py:91-93 | "product research" calls only the researcher and returns its reply |
| RetailRouting.RouteCustomerAnalysis | 2_Agentic_Workflows/exercises/5-agentic-routing.py:94-96 | "customer analysis" calls only the analyzer and returns its reply |
| RetailRouting.RoutePricingStrategy | 2_Agentic_Workflows/exercises/5-agentic-routing.py:97-102 | "pricing strategy" calls the researcher, then the analyzer, then the strategist with both replies, and returns the strategist's reply |
| RetailRouting.LabelsDistinct | 2_Agentic_Workflows/exercises/5-agentic-routing.py:91-97 | the three labels are pairwise different |
| RetailRouting.OrderlySingle | 2_Agentic_Workflows/exercises/5-agentic-routing.py:91-96 | the classification alone, or followed by one agent on the query, is an orderly run |
| RetailRouting.OrderlyPricing | 2_Agentic_Workflows/exercises/5-agentic-routing.py:97-102 | the pricing run is orderly: the strategist comes right after the researcher and the analyzer, on their replies |
| RetailRouting.RoutingOrderly | 2_Agentic_Workflows/exercises/5-agentic-routing.py:86-105 | every run makes exactly one classification call, first, calls nothing twice, and keeps every call on the query |
| RetailRouting.RouteUnknown | 2_Agentic_Workflows/exercises/5-agentic-routing.py:103-105 | any other label calls no agent and returns the apology |
| RetailRouting.LabelsLowerCase | 2_Agentic_Workflows/exercises/5-agentic-routing.py:91-97 | a known label is its own lower case: the labels have no capitals |
| RetailRouting.CaseVariantUnknown | 2_Agentic_Workflows/exercises/5-agentic-routing.py:91-105 | a label that only lowercases to a known one gets the apology, because matching is case-sensitive |
| RetailRouting.CapitalisedLabelUnknown | 2_Agentic_Workflows/exercises/5-agentic-routing.py:91-105 | the label "Product Research" gets the apology |
| RetailRouting.RoutingIgnoresPadding | 2_Agentic_Workflows/exercises/5-agentic-routing.py:87 | replies that agree once stripped route the same way |

## Left out

- Model calls are parameters:
  - the OpenAI client, `client.chat.completions.create`, `call_openai`, the base URL, the model names and the temperatures;
  - the `dotenv` setup;
  - the `OPENAI_API_KEY` lookup, which is a parameter of `LlmAnswer`.
- All `print` output, with its emoji, and `if __name__ == "__main__"`:
  - the demo loops of the four scripts;
  - `compare_answers` of `1-starter.py`;
  - the final outcome report of `optimize_recipe`'s caller.
- `argparse` is left out: `NewMemoryEntry` takes the parsed arguments as an `Args` value.
- `datetime.date.today()` is left out: the default date is part of `Args`.
- `MEMORY_DIR.mkdir` is not modelled. The model has no directories; the file system is a map from path, relative to the repository root, to contents.
- The template read and the entry write are not performed. The template comes from the map, with the fallback when its path is absent, and the run returns the file it would write.
- Encoding errors of `read_text` and `write_text` are not modelled.
- `Text.Lower`: lowercases ASCII letters only. Python's `str.lower` also maps other letters, such as `'À'`, so `kebab_case` and the two case-insensitive tests are modelled for text whose non-ASCII letters have no lower case.
- `RecipeOptimizer.CreatorPromptFeedback`: the "exactly when" direction is stated for the feedback note, in `FeedbackNoteCases`, not for the whole prompt. The phrase can also reach the prompt through the feedback text or the dish name, as `FirstAttemptPhraseFromFeedback` shows.
- The system prompts of the chef and the nutritionist are carried as text, but the routing agents' prompts are not modelled. A routing call is identified by the agent and the data it is given (`Classify`, `Research`, `Analyze`, `Price`).
- Model calls are functions, which has two consequences.
  - Equal requests get equal replies. `create_recipe` samples at temperature 0.7, and that is not modelled. For example, after an empty evaluation the model's chef repeats its first recipe, which the real chef need not do.
  - No call raises. An exception in `create_recipe`, `evaluate` or `call_openai` ends `optimize_recipe` or `routing_agent` mid-run, and that is not modelled.
- The replies of `create_recipe`, `evaluate` and `call_openai` are always strings. A `None` message content, on which `.lower()` or `.strip()` would raise, is not modelled there. That is modelled only in `LlmAnswer`, which catches it.
- `KnowledgeAgent.LlmAnswer`: an exception is carried as the text the formatted message would show, and the exact rendering of each exception type is not modelled.
- `OptimizeRecipe` takes the request as a parameter. The script always passes `RECIPE_REQUEST`, which is `ExampleRequest`.
- `2_Agentic_Workflows/exercises/4-prompt-chaining.py` and `6-agentic-parallelization.py` are not part of this model. Nor are the `project/` scripts, whose `workflow_agents` package is not part of this model. They forward text between model calls, fan out threads or do file I/O, and have no logic of their own.
