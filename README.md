# AI-Wiki-Quiz: the model-calling core, in Dafny

This project models how the AI-Wiki-Quiz backend turns an article into an
analysis, a ten-question quiz and a list of related topics by calling a
language model. It covers these parts:

- **Retry** models `_invoke_chain_with_retries`. It classifies an error as a
  rate limit, works out the wait from the message (`retry in 56.73s`,
  `retryDelay: 56s` or exponential backoff), caps the wait at 120 seconds,
  and stops after three attempts.
- **Recovery** models `_safe_json_parse`. It cleans the reply, strips code
  fences and cuts diagnostic text at markers. It then finds the first `{` or
  `[`, scans for a balanced chunk while skipping quoted strings, and tries the
  repairs (appended closers, cut at the last closer, trailing commas dropped).
  It also covers the copy in `backend/tmp_test_parser.py`, which has no early
  direct parse.
- **ParserCases** covers the four self-test replies of
  `backend/tmp_test_parser.py`, each decoded by a small JSON recogniser
  (**Json**).
- **Quiz** models the three entry points of `backend/app/llm.py`:
  - the article gate: blank, or fewer than 100 characters of the first 8000
    once stripped;
  - a single repair request when the reply does not parse;
  - the completion loop, which makes up to three rounds asking for the
    missing questions and merges them by question text;
  - the `generate_quiz` fallback, which builds questions from the article's
    lines and sentences;
  - the cut to ten questions.
- **Fallback** models the synthesis block of `/generate_quiz` in
  `backend/app/main.py`. It pools sections, related topics, entities and
  summary sentences, drops duplicates with `dict.fromkeys`, and keeps strings
  longer than three characters. It adds a question only when four options can
  be formed.
- **Items** holds the shared pieces:
  - Python dict keys;
  - `[d for d in pool if d != correct]`;
  - `xs[:n]`;
  - `random.shuffle` as any permutation;
  - the fallback question item.
- **Text** holds the shared string operations.

Each model call is one entry of a `Script`, a function from call number to
reply (`Content(text)` or `Raised(message)`). Each operation returns the
number of the next call and the sleeps it would have made. A sleep is
recorded rather than performed.

Operations that loop or update state in the source are methods with loops,
each proved equal to a function or to a predicate that states the result:
- `Retry.InvokeWithRetries`;
- `Recovery.SafeJsonParse` and its scanning loop;
- `Quiz.CompleteQuiz`, `Quiz.LlmFallback` and `Quiz.GenerateQuiz`;
- `Fallback.AppendQuestions` and `Fallback.SynthesizeFallback`.

The lemmas state what those functions promise.

Behaviours of the code a reader might not expect:
- Only `quota` and `rate limit` are matched regardless of case.
  `RESOURCE_EXHAUSTED` and `429` must appear exactly as written
  (`Retry.LowerCaseStatusIsFatal`).
- A sleep follows every retried failure, the last one included.
- Trailing commas are dropped only on the path where a balanced chunk was
  found. The repairs of an unbalanced text do not drop them.
- The `generate_quiz` fallback does not deduplicate its pool and does not
  skip short option lists. Its options can repeat and can number fewer than
  four (`Quiz.LlmOptionsMayRepeat`). Only the `main.py` fallback skips an
  entry with fewer than four options.
- Within one merge round the seen keys record `q.get("question")`, so a
  missing question is recorded as `None`. The next round rebuilds them with
  `q.get("question", "")`. So a question without text and one with empty
  text can both be appended (`Quiz.MissingAndEmptyQuestion`).

## Model

| member | source | states |
|---|---|---|
| Text.Strip | backend/app/llm.py:79 | `strip()`: the result has no whitespace at either end, everything after it is whitespace, and it is empty exactly when the text is all whitespace |
| Text.StripIsInfix | backend/app/llm.py:79 | the stripped text is the infix of the input that begins after its leading whitespace |
| Text.StripAround | backend/app/llm.py:88 | stripping whitespace-surrounded text gives back that text |
| Text.Prefix | backend/app/llm.py:221 | `xs[:n]`, on a string or a list, is the prefix of length min(n, len(xs)) |
| Text.Find | backend/app/llm.py:101 | `str.find`: -1 or an occurrence, with no occurrence before it |
| Text.ContainsIff | backend/app/llm.py:106 | the `in` operator holds exactly when the pattern occurs somewhere |
| Text.FindChar | backend/app/llm.py:106-107 | `find` of one character is -1 exactly when the character is absent, else its first position |
| Text.RFind | backend/app/llm.py:163-164 | `str.rfind` of a character: -1 or its last position |
| Text.SplitJoin | backend/app/llm.py:330 | `split(sep)` loses nothing: joining the parts with `sep` gives the text back, and no part holds `sep` |
| Text.SentencesMembers | backend/app/llm.py:330 | a string is a sentence exactly when it is the non-empty strip of a piece of the text cut at every `.`; no piece holds a `.` |
| Text.StrippedNonEmptyMembers | backend/app/main.py:85 | the comprehension keeps exactly the non-empty stripped parts |
| Json.PlainStringValue | backend/app/llm.py:95 | a string literal without escapes decodes to its body |
| Json.DigitValue | backend/app/llm.py:95 | a lone digit decodes to its number |
| Json.UnterminatedString | backend/app/llm.py:95 | a string literal that is never closed does not decode |
| Recovery.Clean | backend/app/llm.py:76-91 | the cleaned reply is stripped, and is empty exactly when the unfenced reply is whitespace |
| Recovery.CleanFenced | backend/app/llm.py:81-88 | a reply that strips to a fenced json block cleans to the block's stripped body |
| Recovery.CleanUnfenced | backend/app/llm.py:79-88 | a reply without fences cleans to its stripped text |
| Recovery.CutAtRemoves | backend/app/llm.py:100-103 | cutting at a marker leaves text without that marker |
| Recovery.CutAtKeepsAbsence | backend/app/llm.py:100-103 | cutting at a marker adds no text that was absent |
| Recovery.CutAllRemoves | backend/app/llm.py:100-103 | after all cuts, no marker in the list occurs |
| Recovery.CutAllPrefix | backend/app/llm.py:100-103 | the cuts leave a stripped prefix of the cleaned text |
| Recovery.MarkersRemoved | backend/app/llm.py:100-103 | none of the five diagnostic markers survives the cuts |
| Recovery.CutMarkers | backend/app/llm.py:100-103 | the marker loop computes the cut text |
| Recovery.StartOf | backend/app/llm.py:106-119 | the start is the first `{` or `[`, or -1 when there is none |
| Recovery.Step | backend/app/llm.py:127-151 | one character of the scan: inside a string or after an escape the stack is kept; an opener pushes; a closer pops; the chunk ends exactly when a closer empties a one-entry stack outside a string |
| Recovery.Scan | backend/app/llm.py:127-151 | a balanced end is a closer inside the scanned text |
| Recovery.ScanAppend | backend/app/llm.py:127-151 | scanning a concatenation scans the first part, then the rest from where it stopped |
| Recovery.ScanQuoted | backend/app/llm.py:134-142 | a double-quoted string without escapes changes nothing on the stack |
| Recovery.ScanNeverEmpty | backend/app/llm.py:143-151 | a scan from an opener that has not ended still has open brackets |
| Recovery.BalancedChunk | backend/app/llm.py:145-151 | a balanced end closes the only open bracket and is where the scan stops |
| Recovery.ScanText | backend/app/llm.py:121-151 | the scanning loop finds the balanced end, or returns the open stack when there is none |
| Recovery.Closers | backend/app/llm.py:155-157 | one closer per open bracket, innermost first, matching its kind |
| Recovery.BuildClosers | backend/app/llm.py:155-157 | the loop over the reversed stack builds those closers |
| Recovery.UnbalancedNeedsClosers | backend/app/llm.py:153-158 | an unbalanced text always gets at least one closer |
| Recovery.ClosingRun | backend/app/llm.py:180 | the pattern's `\s*[}\]]` tail after a comma: the length of a whitespace run ending in a closer, or none |
| Recovery.DropTrailingCommasSpec | backend/app/llm.py:180 | the substitution equals removing each comma that is followed only by whitespace and then a closer |
| Recovery.DropCommaFree | backend/app/llm.py:180 | text without commas passes through the substitution unchanged |
| Recovery.FirstParsed | backend/app/llm.py:94-184 | the result is the value of the first candidate that decodes; it fails, with the text's own error, exactly when none decodes |
| Recovery.EmptyReplyFails | backend/app/llm.py:76-77 | a blank reply fails as an empty response whatever the decoder |
| Recovery.EmptyAfterCleaningFails | backend/app/llm.py:90-91 | a reply that is not blank but cleans to nothing fails as empty after cleaning, whatever the decoder |
| Recovery.BareFenceCleansToNothing | backend/app/llm.py:79-91 | a bare code fence is such a reply: not blank, yet empty once the fence is removed |
| Recovery.DirectParseFirst | backend/app/llm.py:93-95 | a cleaned reply that decodes is returned as is |
| Recovery.VariantsAgree | backend/tmp_test_parser.py:6-98 | the copy without the early direct parse gives the same outcome whenever the cleaned text does not decode directly |
| Recovery.CandidatesStartAtOpener | backend/app/llm.py:158-174 | every candidate tried after the cuts starts with the first opener |
| Recovery.BalancedChunkStripped | backend/app/llm.py:174-182 | on a balanced end, the candidates are the chunk and the chunk without trailing commas |
| Recovery.SafeJsonParse | backend/app/llm.py:65-184 | the parser returns the first candidate that decodes, else the error its text calls for |
| Recovery.ParseCutText | backend/app/llm.py:105-184 | the part after the cuts tries the candidates in order |
| Recovery.ParseUnbalanced | backend/app/llm.py:153-172 | the closers repair first, then the cut at the last closer when it lies after the start |
| Recovery.ParseBalanced | backend/app/llm.py:174-184 | the stripped chunk first, then the chunk without trailing commas |
| ParserCases.SummaryDecodes | backend/tmp_test_parser.py:104 | the object of the first self-test reply decodes to its title and summary |
| ParserCases.DiagnosticCase | backend/tmp_test_parser.py:104 | the reply with trailing `Error:` text parses to the object before it |
| ParserCases.ListingDecodes | backend/tmp_test_parser.py:106 | the fenced object decodes to its title and list |
| ParserCases.FencedCase | backend/tmp_test_parser.py:106 | the fenced reply parses to the object inside the fence |
| ParserCases.ClosedRejected | backend/tmp_test_parser.py:108 | the truncated reply with a closing brace added still does not decode, since its string stays open |
| ParserCases.TruncatedCase | backend/tmp_test_parser.py:108 | the truncated reply fails with the unbalanced-text error |
| ParserCases.TrailingRejected | backend/tmp_test_parser.py:110 | the object with a trailing comma does not decode as it is |
| ParserCases.FixedDecodes | backend/tmp_test_parser.py:110 | without the comma it decodes to the two members |
| ParserCases.TrailingCommaCase | backend/tmp_test_parser.py:110 | the reply with a trailing comma parses after the comma is dropped |
| Retry.RateLimitedIff | backend/app/llm.py:49 | an error is retried exactly when its message holds `RESOURCE_EXHAUSTED` or `429`, or its lower-cased message holds `quota` or `rate limit` |
| Retry.LowerCaseStatusIsFatal | backend/app/llm.py:49 | a message `resource_exhausted` in lower case is not retried |
| Retry.WithoutMarkerChars | backend/app/llm.py:49 | a message lacking a character of every marker is not retried |
| Retry.RateLimitedAnyCase | backend/app/llm.py:49 | an error is retried exactly when its message holds `RESOURCE_EXHAUSTED` or `429` as written, or a piece that lowers to `quota` or to `rate limit` |
| Retry.QuotaAnyCase | backend/app/llm.py:49 | any piece of the message that lowers to `quota`, whatever its case, makes the error retryable |
| Retry.RateLimitAnyCase | backend/app/llm.py:49 | any piece of the message that lowers to `rate limit`, whatever its case, makes the error retryable |
| Retry.Search | backend/app/llm.py:51-55 | `re.search`: the first position where the pattern matches, or -1 |
| Retry.RetryInComplete | backend/app/llm.py:51-53 | text of the form `retry in <digits>[.<digits>]s` matches with that number |
| Retry.RetryInSound | backend/app/llm.py:51-53 | every match of the first pattern is such a text |
| Retry.RetryDelayComplete | backend/app/llm.py:55-56 | text of the form `retryDelay<non-word chars><digits>s` matches with that integer |
| Retry.RetryDelaySound | backend/app/llm.py:55-56 | every match of the second pattern is such a text |
| Retry.DelayFromRetryIn | backend/app/llm.py:51-53 | the first `retry in` match decides the delay |
| Retry.DelayFromRetryDelay | backend/app/llm.py:54-56 | without one, the first `retryDelay` match decides it |
| Retry.DelayBackoff | backend/app/llm.py:56 | without either, the delay is 5 times 2 to the attempt |
| Retry.Wait | backend/app/llm.py:57 | the wait is the delay, capped at 120 seconds |
| Retry.WaitNonNegative | backend/app/llm.py:57 | the wait is never negative |
| Retry.AttemptsEnd | backend/app/llm.py:41-62 | how each outcome of the loop ends: the call that returned, the call whose error is not retried, or all attempts spent |
| Retry.AttemptsSleep | backend/app/llm.py:45-58 | the j-th sleep follows the j-th call, a retried failure, and lasts the policy's wait for it |
| Retry.AttemptsContract | backend/app/llm.py:36-62 | at most `max_retries` calls; a success returns at once; an error that is not retried is raised at once; the last error is raised after `max_retries` retried failures, each followed by its sleep |
| Retry.InvokeSleepsBounded | backend/app/llm.py:57 | every sleep lies between 0 and 120 seconds |
| Retry.SuccessReturnsAtOnce | backend/app/llm.py:43-44 | a first call that succeeds is the only call and no sleep is made |
| Retry.InvokeWithRetries | backend/app/llm.py:36-62 | the loop computes the outcome, sleeps and calls of the attempts function |
| Items.KeyOf | backend/app/llm.py:300-303 | a value has a dict key unless it is a list or a dict |
| Items.Others | backend/app/llm.py:338 | the other entries are exactly the pool entries that differ from the answer |
| Items.OthersCount | backend/app/llm.py:338 | their number is the pool's size less the answer's occurrences |
| Items.Shuffle | backend/app/llm.py:333 | the shuffle is a permutation |
| Quiz.GateSpec | backend/app/llm.py:217-223 | only a blank article is refused as empty; a short refusal names a length under 100; the text sent is a stripped piece of the first 8000 characters, 100 to 8000 long |
| Quiz.PreparedSpec | backend/app/llm.py:225-229 | a refused article makes no call; an accepted one makes one to three calls; the sleeps are bounded; a success is the non-empty content of the last call |
| Quiz.RepairAtMostOnce | backend/app/llm.py:230-238 | a reply that parses makes no further call; otherwise one repair call is made and its content decides the result, or the error names the original failure |
| Quiz.AnalyzeCalls | backend/app/llm.py:215-238 | the analysis makes no call for a refused article and at most four calls otherwise |
| Quiz.AnalyzeFirstParses | backend/app/llm.py:227-231 | a first reply that parses is the analysis, after one call |
| Quiz.LlmReaderDirect | backend/app/llm.py:93-95 | the reader returns a cleaned reply that decodes as it is |
| Quiz.AnalyzeCleanReply | backend/app/llm.py:227-231 | a first reply whose cleaned text decodes gives that value after one call |
| Quiz.RelatedNoRepair | backend/app/llm.py:357-375 | related topics ask for no repair; a result is the list the reply decodes to, and a reply that does not parse fails |
| Quiz.ExistingKeysSpec | backend/app/llm.py:296 | the seen keys are those of the questions held; building them fails when a held item is not a dict or has an unhashable question |
| Quiz.MergeFresh | backend/app/llm.py:297-303 | a merge appends only dicts from the reply whose question is hashable and was not seen, no two with the same question |
| Quiz.MergeComplete | backend/app/llm.py:297-303 | a merge that does not raise leaves no dict behind whose question is new |
| Quiz.MergeRaises | backend/app/llm.py:297-303 | a merge raises only on a dict whose question is unhashable |
| Quiz.MergeAppends | backend/app/llm.py:302 | a merge only appends to the list |
| Quiz.MissingAndEmptyQuestion | backend/app/llm.py:296-303 | a question without text and one with empty text are both appended in one round, and the next round sees one key |
| Quiz.MergeRound | backend/app/llm.py:296-303 | the merge loop appends what the merge function says |
| Quiz.RoundSpec | backend/app/llm.py:271-314 | one round makes one to three calls, with bounded sleeps, and only appends questions; a round that ends the loop fails only when its call fails |
| Quiz.RoundsCalls | backend/app/llm.py:270-314 | the rounds make at most three calls each over three rounds, and none when ten questions are held |
| Quiz.RoundsSleeps | backend/app/llm.py:270-314 | every sleep of the rounds is between 0 and 120 seconds |
| Quiz.RoundsAppend | backend/app/llm.py:270-314 | the rounds only append, and fail only when a call fails |
| Quiz.RunRound | backend/app/llm.py:272-314 | one iteration of the loop computes the round |
| Quiz.CompleteQuiz | backend/app/llm.py:270-314 | the loop computes the rounds |
| Quiz.LongerThanThree | backend/app/llm.py:332 | the pool keeps exactly the strings longer than three characters |
| Quiz.LlmOptionsOf | backend/app/llm.py:336-341 | the answer appears exactly once among the options, every option is from the pool, and there are as many other options as the pool has other entries, up to three |
| Quiz.LlmOptionsMayRepeat | backend/app/llm.py:322-341 | with a repeated line in the pool, the options can be three with a repeat |
| Quiz.LlmQuestion | backend/app/llm.py:336-341 | the options of a question are as `LlmOptions` says |
| Quiz.LlmFallback | backend/app/llm.py:318-352 | the fallback appends one question per shuffled pool entry until ten are held; the answers come from the pool and each question's options are as `LlmOptions` says |
| Quiz.QuizCalls | backend/app/llm.py:241-314 | `generate_quiz` makes no call for a refused article and at most thirteen otherwise |
| Quiz.DraftQuiz | backend/app/llm.py:241-314 | the first list and the completion rounds compute the draft |
| Quiz.FinishQuiz | backend/app/llm.py:316-354 | a short draft is filled from the pool and any list is cut to ten, with no further call |
| Quiz.GenerateQuiz | backend/app/llm.py:241-354 | a refused article makes no call; otherwise the quiz is the draft finished from the pool of the text sent |
| Fallback.FromKeys | backend/app/main.py:87 | `dict.fromkeys` fails exactly when an entry is a list or a dict; otherwise every kept entry comes from the pool with a key not met before, and no key is kept twice |
| Fallback.FromKeysFirsts | backend/app/main.py:87 | on a hashable pool `dict.fromkeys` keeps exactly the entries at which a key is met for the first time, in their pool order (the independent reference `FirstEntries`) |
| Fallback.Usable | backend/app/main.py:87 | the filter keeps exactly the strings longer than three characters; it fails exactly when a truthy number or `True` meets `len` |
| Fallback.FromKeysStrings | backend/app/main.py:87 | a string survives deduplication exactly when its key was not met before |
| Fallback.FromKeysLenRaises | backend/app/main.py:87 | deduplication keeps a value that makes `len` raise exactly when there was one |
| Fallback.UsableDistinct | backend/app/main.py:87 | deduplicated strings are distinct |
| Fallback.FilteredShape | backend/app/main.py:87 | the filtered pool is distinct and holds exactly the strings longer than three characters |
| Fallback.FilteredRaises | backend/app/main.py:87 | filtering raises exactly when an entry is a list, a dict, a truthy number or `True` |
| Fallback.PoolShape | backend/app/main.py:74-87 | the pool is distinct and holds exactly the gathered strings longer than three characters |
| Fallback.PoolRaises | backend/app/main.py:73-87 | building the pool raises exactly when gathering does, or when an entry is unhashable or makes `len` raise |
| Fallback.NonDictAnalysis | backend/app/main.py:75-85 | an analysis that is not a dict contributes nothing, so the gathered pool is the related topics |
| Fallback.MissingEntities | backend/app/main.py:79-82 | an analysis dict without `key_entities` makes the pool raise |
| Fallback.ExtendByEntities | backend/app/main.py:80-82 | the entity loop appends the people, organisations and locations that are lists |
| Fallback.AssemblePool | backend/app/main.py:74-85 | the gathering code builds the gathered pool, or raises |
| Fallback.BuildPool | backend/app/main.py:74-87 | the gathering and filtering code builds the pool |
| Fallback.OptionsLength | backend/app/main.py:94-97 | with fewer than four pool entries the options are too few; with four or more distinct entries there are exactly four |
| Fallback.OptionsContent | backend/app/main.py:94-100 | four options hold the answer, come from the pool, and are distinct when the pool is |
| Fallback.Question | backend/app/main.py:92-100 | an entry is skipped when the pool has fewer than four entries and gets options with four or more distinct ones; options given are four, hold the answer and come from the pool |
| Fallback.ProgressSkip | backend/app/main.py:97-99 | a skipped entry changes nothing added so far |
| Fallback.ProgressAdd | backend/app/main.py:100-108 | an entry with options adds its question |
| Fallback.ProgressDone | backend/app/main.py:91 | when the loop stops, the items are as `Synthesized` says |
| Fallback.Consider | backend/app/main.py:92-108 | one loop iteration keeps the loop invariant |
| Fallback.AppendQuestions | backend/app/main.py:88-108 | the questions extend the list up to ten, or until the pool runs out: one per pool entry, each with four distinct options from the pool holding its answer |
| Fallback.SynthesizeFallback | backend/app/main.py:70-110 | a list of ten or more, or a pool that raises, leaves the list unchanged; otherwise the questions are added as `Synthesized` says |

## Left out

- The Gemini client and its setup (`_get_model`, the API key, the model settings) are left out. Each call's reply comes from a script of replies given as a parameter.
- The prompts and their wording are left out. The templates are text, and the model treats every reply independently of its prompt. That includes the repair prompts and the prompt asking for more questions.
- `json.dumps` of the existing questions is left out. It only shapes the prompt.
- `time.sleep` is not performed. Each wait is recorded in the run's list of sleeps.
- Logging, `print` and the `traceback` output are left out. They affect no result.
- The error messages' wording is left out. Failures are datatype constructors; the snippets of the reply that a message quotes are not modelled.
- The `result.content` attribute check is left out. A reply is either text (possibly empty) or a raised message. An empty text is modelled as the "empty response" failure.
- Json: the value type has no floats. `json.loads` returns a float for a number with a fraction or an exponent, and for `NaN` and `Infinity`; those values are not modelled. So a float dict key, a float answer or a float pool entry is outside the model.
- Json.Loads: the recogniser stands in for `json.loads`. It accepts objects, arrays, strings with simple escapes, integers, `true`, `false` and `null`. It rejects fractions, exponents and `\u` escapes, which `json.loads` accepts. Every recovery lemma holds for any decoder into this value type; only the self-test lemmas use this one.
- Text.IsSpace, Text.Lower: `str.strip` and `\s` are modelled on the usual whitespace code points. `str.lower` and `\d` are modelled on ASCII. The full Unicode tables are not modelled.
- Retry.IsWordChar: `\w` is modelled as an ASCII letter, digit or `_`, or ANY non-ASCII character. So a non-ASCII character that is not a word character in Python (U+00A0, say) between `retryDelay` and the digits ends the model's `\W*`, where Python's skips it, so the model finds no `retryDelay` match at that point while Python does.
- Retry.Wait: delays are exact decimals (`real`), not floating point.
- Items.Shuffle: `random.shuffle` is any permutation. Its distribution is not modelled.
- The `None` article (`not article_text` on `None`) is not modelled. Articles are strings.
- The main.py fallback takes the analysis and the related topics as JSON values, as the LLM functions return them.
- The FastAPI endpoint around main.py:70-110 is left out: fetching, scraping, persistence and the HTTP error mapping.
- Concurrency across requests is left out. Every request is independent.
