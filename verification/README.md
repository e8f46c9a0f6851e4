# Question allocation and generation client, in Dafny

This project models the two pieces of the exam question generator that carry
logic of their own.

- **Weightage-proportional allocation** (`src/lib/weightage.ts`). Given topics
  with weightages and a requested number of questions, it gives each topic a
  raw quota. It then adds the whole difference between the request and the
  sum of the raw quotas to the first topic of maximal weightage.
- **The generation client** (`src/lib/gemini.ts`). This covers:
  - a round-robin pool of API keys;
  - `callGeminiAPI`, which tries each key at most once per call;
  - the section parsers of the generated text;
  - the type-specific answer validators;
  - the two regenerate-until-valid loops;
  - what the two prompt builders put into a prompt.

Modules:

- `Wrappers`: `Option` and `Result`.
- `JsStrings`: the JavaScript string primitives the client relies on. These
  are `\s` and `trim`, `toUpperCase`, `split` with a one-character separator,
  `indexOf`, and `length` counted in UTF-16 code units.
- `Weightage`: `calculateQuestionDistribution` as a method with its loop. It
  is proved equal to the declarative `Distribution`. Lemmas about
  `Distribution` give the sum, the single adjusted row and the examples.
- `Prompts`: prompts as structured data. A prompt records the excerpts and
  lettered options it embeds.
- `ResponseParsing`: the regex searches of `parseGeneratedQuestion` and
  `parsePYQSolution`, written as the left-to-right search the regex engine
  performs.
- `ResponseRoundTrip`: responses written in the formats the prompts ask for
  (gemini.ts:166-173 and 214-216), and lemmas that parsing them gives back
  the question, options, answer and solution written into them.
- `AnswerValidation`: `verifyAnswer` and `verifyPYQAnswer` as predicates,
  with lemmas that characterise them.
- `Client`: the key pool and its rotation index as a class, `GeminiClient`.
  - `CallGeminiAPI`, `Regenerate`, `GenerateQuestion` and
    `GeneratePYQSolution` are methods on it.
  - Each method is proved against the functions `Retry` and `Rounds`. The
    methods also keep a ghost log of every request sent.
  - Each attempt's `fetch` outcome is read from a finite script of outcomes
    given by the caller. An attempt after the script is used up fails like a
    transport fault.

## Model

| member | source | states |
|---|---|---|
| Weightage.CalculateQuestionDistribution | src/lib/weightage.ts:8-51 | the loop pushes one raw row per topic and sums the quotas, then adjusts one row. The result equals `Distribution(topics, totalQuestions)`, and for a non-empty topic list the quotas sum to `totalQuestions` |
| Weightage.TotalWeightage | src/lib/weightage.ts:12 | the sum of the weightages: bounded by `TotalWeightageBounds` and `TotalWeightageNonNegative` |
| Weightage.TotalQuestions | src/lib/weightage.ts:53-55 | `getTotalQuestionsFromDistribution`: additive over concatenation (`TotalQuestionsAppend`) and over a change to one row (`TotalQuestionsUpdate`) |
| Weightage.RawDistribution | src/lib/weightage.ts:17-42 | the rows the loop pushes: `RawDistributionStep` states each push, and `RawQuotaAtLeastOne` the quota bound |
| Weightage.Reconcile | src/lib/weightage.ts:44-48 | adds the difference to the first heaviest row only, as `DistributionAdjustsOnlyHeaviest` states |
| Weightage.Distribution | src/lib/weightage.ts:8-51 | what `calculateQuestionDistribution` returns: `CalculateQuestionDistribution` computes it, and `DistributionSumsToTotal` and `DistributionKeepsTopics` state its meaning |
| Weightage.RawDistributionStep | src/lib/weightage.ts:34-41 | pushing topic `i`'s quota extends the raw prefix by that row and its running total by that quota |
| Weightage.RawQuota | src/lib/weightage.ts:21-31 | the quota is 1 for weightage 0. Otherwise, if the total weightage is 0, it is the ceiling of `total / len`. Otherwise it is the nearest integer to `w * total / W` (halves up), raised to 1 when that is 0 and `w > 0` |
| Weightage.RoundDiv | src/lib/weightage.ts:26-27 | `Math.round(n / d)`: `r` is within half of `n / d`, and halves round up, for either sign of `d` |
| Weightage.CeilDiv | src/lib/weightage.ts:24 | `Math.ceil(n / k)`: the least `r` with `n <= k * r` |
| Weightage.FloorDiv | src/lib/weightage.ts:26-27 | the mathematical floor of `n / d` for either sign of `d` |
| Weightage.RawQuotaAtLeastOne | src/lib/weightage.ts:21-31 | with non-negative weightages and total, every raw quota is at least 1 |
| Weightage.TotalWeightageBounds | src/lib/weightage.ts:12 | with non-negative weightages, each weightage is at most the total weightage |
| Weightage.TotalWeightageNonNegative | src/lib/weightage.ts:12 | a sum of non-negative weightages is non-negative |
| Weightage.HeaviestIndex | src/lib/weightage.ts:46-47 | returns the first position of maximal weightage |
| Weightage.FirstHeaviestUnique | src/lib/weightage.ts:46-47 | only one position can be the first of maximal weightage |
| Weightage.StableSortHeadIsHeaviest | src/lib/weightage.ts:46 | the head of any stable descending-by-weightage arrangement of the rows is the first topic of maximal weightage |
| Weightage.DistributionKeepsTopics | src/lib/weightage.ts:17-39 | one row per topic, in input order, with id, name and weightage copied unchanged |
| Weightage.DistributionSumsToTotal | src/lib/weightage.ts:44-48 | for a non-empty topic list the quotas sum exactly to the requested total |
| Weightage.DistributionAdjustsOnlyHeaviest | src/lib/weightage.ts:44-48 | every row except the first heaviest keeps its raw quota. The first heaviest gets its raw quota plus the whole difference, with no clamping |
| Weightage.DistributionOthersAtLeastOne | src/lib/weightage.ts:21-31 | with non-negative weightages and total, every row other than the first heaviest has at least one question |
| Weightage.DistributionOfNoTopics | src/lib/weightage.ts:17 | no topics give an empty result |
| Weightage.TotalQuestionsAppend | src/lib/weightage.ts:53-55 | `getTotalQuestionsFromDistribution` of a concatenation is the sum of the two totals |
| Weightage.TotalQuestionsUpdate | src/lib/weightage.ts:47 | changing one row's quota by `delta` changes the total by `delta` |
| Weightage.ExampleProportional | src/lib/weightage.ts:25-31 | weightages 50, 30, 20 with 10 questions give 5, 3, 2 |
| Weightage.ExampleZeroWeightages | src/lib/weightage.ts:21-22 | two weightage-0 topics with 5 questions give 4, 1: the remainder goes to the first |
| Weightage.ExampleNegativeQuota | src/lib/weightage.ts:44-47 | three weightage-0 topics with 1 question give -1, 1, 1 |
| Weightage.TotalQuestionsOfTwo | src/lib/weightage.ts:53-55 | the total of two rows is the sum of their quotas |
| Weightage.TotalQuestionsOfThree | src/lib/weightage.ts:53-55 | the total of three rows is the sum of their quotas |
| Client.GeminiClient.constructor | src/lib/gemini.ts:1-8 | a client starts at key index 0 with an empty log, over a non-empty pool |
| Client.GeminiClient.GetNextApiKey | src/lib/gemini.ts:10-14 | returns `keys[i]` and sets the index to `(i + 1) % n`, so it stays below `n` |
| Client.NextIsModulo | src/lib/gemini.ts:12 | the wrap-around step equals `(i + 1) % n` |
| Client.Next | src/lib/gemini.ts:12 | the next index stays inside the pool |
| Client.Advance | src/lib/gemini.ts:12 | after any number of rotations the index stays inside the pool |
| Client.AdvanceWithinLap | src/lib/gemini.ts:12 | within one lap, `k` rotations add `k`, wrapping once |
| Client.AdvanceAdd | src/lib/gemini.ts:12 | `a` rotations then `b` rotations are `a + b` rotations |
| Client.RotationVisitsDistinctKeys | src/lib/gemini.ts:31-36 | fewer than `n` rotations from one index never revisit an index |
| Client.Retry | src/lib/gemini.ts:31-71 | a call makes at most `n - retryCount` attempts. It returns the first delivered text, after failures only. It throws `AllKeysFailed` only after every remaining key failed once |
| Client.RetryAfterFailure | src/lib/gemini.ts:59-70 | after a failed attempt the call continues with the next key on the rest of the script |
| Client.ExampleThreeKeysExhausted | src/lib/gemini.ts:32-34 | three keys that all fail end the call after three attempts, even though a fourth outcome would deliver |
| Client.GeminiClient.CallGeminiAPI | src/lib/gemini.ts:31-71 | leaves the state `CallLogged` describes. The result and the script left are those of `Retry`. The index advances once per attempt, the successful one included. The log gains one request per attempt, with the prompt and keys in rotation order |
| Client.ExhaustedCall | src/lib/gemini.ts:32-34 | once `retryCount` reaches the pool size, the call throws with no attempt, no request and no index change |
| Client.DeliveredCall | src/lib/gemini.ts:59-66 | a delivered first attempt returns its text after exactly one request with the current key |
| Client.RetriedCall | src/lib/gemini.ts:59-70 | a failed attempt's request followed by the retry's requests are the requests of the whole call |
| Client.CallTriesDistinctKeys | src/lib/gemini.ts:31-36 | the keys one call tries are pairwise distinct |
| Client.RequestsRotate | src/lib/gemini.ts:36 | attempt `j` of a call uses the key `j` rotations after the first |
| Client.Requests | src/lib/gemini.ts:36-47 | a run of `count` attempts logs `count` requests, all carrying the prompt |
| Client.RequestsAppend | src/lib/gemini.ts:31-71 | two runs of attempts back to back are one run |
| Client.Drop | src/lib/gemini.ts:39-57 | the script left after `k` attempts |
| Client.Consumed | src/lib/gemini.ts:39-57 | how much of the script `k` attempts consume |
| Client.OutcomeAfterFirst | src/lib/gemini.ts:62 | the retry sees the outcomes after the first, shifted by one |
| Client.AcceptQuestion | src/lib/gemini.ts:82-85 | a text is kept exactly when `verifyAnswer` accepts its parsed question, and the kept value is that question |
| Client.AcceptSolution | src/lib/gemini.ts:101-104 | a text is kept exactly when `verifyPYQAnswer` accepts its parsed answer, and the kept value is the parsed solution |
| Client.Rounds | src/lib/gemini.ts:73-110 | the regenerate loop fails only with `AllKeysFailed`. A result is what `accept` made of the last text consumed, which was delivered |
| Client.RoundsByFirstCall | src/lib/gemini.ts:81-90 | one unfolding: a thrown call ends the loop, an accepted text ends it with that value, a rejected text restarts on the rest of the script |
| Client.RoundsRejectEarlierTexts | src/lib/gemini.ts:84-88 | every delivered text before the last consumed outcome was rejected: the loop never skips an acceptable text |
| Client.OnlyLastAttemptDelivers | src/lib/gemini.ts:59-66 | within one call only the last attempt can have delivered, and its text is the call's result |
| Client.RejectedWithinFirstCall | src/lib/gemini.ts:84-87 | a delivered text of the first call that is not the loop's last outcome was rejected |
| Client.LaterRoundsFollowRejection | src/lib/gemini.ts:84-87 | the loop only goes past the first call when the first call delivered a rejected text |
| Client.RejectedAfterFirstCall | src/lib/gemini.ts:84-87 | an outcome after the first call's lies in the part the rest of the loop rejected |
| Client.RoundsResultAccepted | src/lib/gemini.ts:84-90 | a successful result is something `accept` produced |
| Client.GeneratedQuestionIsValid | src/lib/gemini.ts:73-91 | `generateQuestion` only returns a question that `verifyAnswer` accepts, of the requested type |
| Client.GeneratedSolutionIsValid | src/lib/gemini.ts:93-110 | `generatePYQSolution` only returns a solution whose answer `verifyPYQAnswer` accepts |
| Client.EmptyPoolFailsAtOnce | src/lib/gemini.ts:32-34 | with no keys, a request fails with `AllKeysFailed` after zero attempts |
| Client.FailedRound | src/lib/gemini.ts:81 | a thrown call leaves the state `Rounds` describes |
| Client.AcceptedRound | src/lib/gemini.ts:84-90 | an accepted text leaves the state `Rounds` describes |
| Client.RejectedRound | src/lib/gemini.ts:84-88 | the first call's requests followed by those of the restarted loop are the requests of the whole loop |
| Client.RejectedRoundShape | src/lib/gemini.ts:84-88 | after a rejected text the result and the remaining script are those of the loop on the rest of the script |
| Client.RunsCompose | src/lib/gemini.ts:87 | runs of `a` and then `b` attempts log the requests of `a + b` attempts and advance the index by `a + b` |
| Client.GeminiClient.Regenerate | src/lib/gemini.ts:80-90 | result, remaining script, request log and key index are those `Rounds` gives for the prompt |
| Client.GeminiClient.GenerateQuestion | src/lib/gemini.ts:73-91 | the question prompt is sent round after round. The result is `Rounds` with the `verifyAnswer` acceptor, and each attempt is logged with its rotated key |
| Client.GeminiClient.GeneratePYQSolution | src/lib/gemini.ts:93-110 | the solution prompt is sent round after round. The result is `Rounds` with the `verifyPYQAnswer` acceptor, and each attempt is logged with its rotated key |
| Prompts.FirstExcerpts | src/lib/gemini.ts:118-120 | `slice(0, 5)`: the first `min(5, n)` excerpts, in order |
| Prompts.LastExcerpts | src/lib/gemini.ts:122-124 | `slice(-3)`: the last `min(3, n)` excerpts, in order |
| Prompts.LetterOptions | src/lib/gemini.ts:191 | one line per option, in order, with the option text. Line `i` carries the code unit `(65 + i)` modulo 2^16, so the first 26 are lettered `A` onward |
| Prompts.BuildQuestionPrompt | src/lib/gemini.ts:112-183 | the prompt names the type and context. Its inspiration excerpts are exactly `FirstExcerpts` of the existing questions (the first five, in order) and its avoid list is exactly `LastExcerpts` of the generated ones (the last three, in order) |
| Prompts.BuildPYQSolutionPrompt | src/lib/gemini.ts:185-224 | the prompt names the statement, type and context. It has an OPTIONS block exactly when options are given, and that block is `LetterOptions` of the options: one lettered line per option, in order, with its text |
| JsStrings.LeadingWhitespace | src/lib/gemini.ts:227-234 | the length of the maximal whitespace prefix |
| JsStrings.TrailingWhitespace | src/lib/gemini.ts:227-234 | the length of the maximal whitespace suffix |
| JsStrings.TrimBounds | src/lib/gemini.ts:232-234 | everything outside the bounds is whitespace, and the kept part starts and ends with non-whitespace |
| JsStrings.Trim | src/lib/gemini.ts:232-234 | `trim()` gives a trimmed string, no longer than the input, that is empty exactly when the input is all whitespace |
| JsStrings.ToUpper | src/lib/gemini.ts:270 | `toUpperCase()` on ASCII: same length, every lower-case letter becomes its upper-case letter, and every other character is kept |
| JsStrings.Split | src/lib/gemini.ts:241 | `split(sep)` gives one more part than there are separators, and no part holds the separator |
| JsStrings.JoinSplit | src/lib/gemini.ts:241 | joining the parts of a split gives back the string |
| JsStrings.SplitJoin | src/lib/gemini.ts:278 | splitting separator-free parts joined with the separator gives back the parts |
| JsStrings.SplitWithoutSeparator | src/lib/gemini.ts:278 | a string without the separator splits into itself alone |
| JsStrings.SplitAfterPart | src/lib/gemini.ts:278 | a separator-free first part is split off whole |
| JsStrings.IndexOf | src/lib/gemini.ts:227-230 | the first occurrence of the pattern at or after `from`, or none |
| JsStrings.OccursInSlice | src/lib/gemini.ts:229 | an occurrence inside a slice is an occurrence in the whole string |
| JsStrings.Utf16Length | src/lib/gemini.ts:274 | `length` lies between the number of characters and twice that |
| ResponseParsing.SkipWhitespace | src/lib/gemini.ts:227-230 | `\s*` stops at the first non-whitespace character |
| ResponseParsing.FirstStop | src/lib/gemini.ts:227-228 | the lookahead matches at the first position at or after `from` where one of the stop labels occurs. The position found holds a stop label, and no earlier position does |
| ResponseParsing.FirstStopAt | src/lib/gemini.ts:227-228 | a stop label at `j`, with none between `from` and `j`, is where the lookahead matches |
| ResponseParsing.LazyCapture | src/lib/gemini.ts:227-228 | the group is the capture at the first occurrence of the label, at or after `from`, where the lookahead finds a stop. At every earlier occurrence it finds none. There is no group exactly when no occurrence finds a stop |
| ResponseParsing.LazyCaptureTakesFirstMatch | src/lib/gemini.ts:227-228 | when the match succeeds at the first occurrence `p` of the label, the group is the capture at `p` |
| ResponseParsing.TailCapture | src/lib/gemini.ts:230 | the SOLUTION capture exists exactly when the label occurs. It is everything after the first occurrence and the whitespace that follows it |
| ResponseParsing.TailCaptureAt | src/lib/gemini.ts:230 | at the first occurrence `p` of the label, the capture is the text after `p`, the label and `\s*` |
| ResponseParsing.LineEnd | src/lib/gemini.ts:229 | the answer capture stops at the first newline or `SOLUTION:`, crossing no line terminator. When there is no such end, every later newline or `SOLUTION:` lies past a line terminator |
| ResponseParsing.NoOccurrenceInSlice | src/lib/gemini.ts:229 | a slice with no occurrence start in it holds no occurrence |
| ResponseParsing.AnswerAt | src/lib/gemini.ts:229 | the group at one occurrence of `ANSWER:` holds no line terminator and no `SOLUTION:` |
| ResponseParsing.AnswerAtLine | src/lib/gemini.ts:229 | when the line after `ANSWER:` and `\s*` ends at `j`, the group is the text up to `j` |
| ResponseParsing.AnswerCapture | src/lib/gemini.ts:229 | the ANSWER capture holds no line terminator and no `SOLUTION:`, and needs the label |
| ResponseParsing.AnswerCaptureTakesFirstMatch | src/lib/gemini.ts:229 | when the match succeeds at the first occurrence `p` of `ANSWER:`, the group is the one at `p` |
| ResponseParsing.TrimmedOrEmpty | src/lib/gemini.ts:232-234 | a missing section gives `''`, and a found one is trimmed |
| ResponseParsing.TrimKeepsAnswerShape | src/lib/gemini.ts:233 | trimming the answer capture keeps it free of line terminators and `SOLUTION:` |
| ResponseParsing.ParseAnswer | src/lib/gemini.ts:229-233 | the answer is trimmed and on one line, holds no `SOLUTION:`, and is `''` without the label |
| ResponseParsing.StripMarker | src/lib/gemini.ts:244 | a leading `A)`–`D)` marker is removed together with the whitespace after it (the result is at least two shorter exactly then), the result is a suffix of the input, and without a marker the string is unchanged |
| ResponseParsing.StripMarkerRemovesOneMarker | src/lib/gemini.ts:244 | `"A) B) x"` becomes `"B) x"`: a second marker stays |
| ResponseParsing.OptionEntries | src/lib/gemini.ts:240-244 | there are no more entries than lines, and every entry is `StripMarker(Trim(line))` of some non-blank line; `OptionEntriesOfNonBlank` and `OptionEntriesAppend` fix the list and its order |
| ResponseParsing.OptionEntry | src/lib/gemini.ts:242-244 | a line gives an entry exactly when it is not blank, and that entry is the trimmed line without its marker |
| ResponseParsing.OptionEntriesAppend | src/lib/gemini.ts:240-244 | the entries of two blocks of lines are the entries of each, in order |
| ResponseParsing.OptionEntriesOfNonBlank | src/lib/gemini.ts:240-244 | every non-blank line gives one entry, so the list is not capped at four, and entry `i` is `StripMarker(Trim(lines[i]))` |
| ResponseParsing.ParseOptions | src/lib/gemini.ts:236-246 | options are set exactly when the type is MCQ or MSQ and an `OPTIONS: … ANSWER:` block exists |
| ResponseParsing.ParseGeneratedQuestion | src/lib/gemini.ts:226-255 | all fields are trimmed, and a missing section gives `''`. The answer is one line without `SOLUTION:`. The type is copied, and options are set as `ParseOptions` says |
| ResponseParsing.ParsePYQSolution | src/lib/gemini.ts:257-265 | the same answer and solution as `parseGeneratedQuestion` on the same text |
| ResponseParsing.QuestionSection | src/lib/gemini.ts:227 | the question group: stated on whole responses by `ResponseRoundTrip.QuestionBlock` |
| ResponseParsing.OptionsSection | src/lib/gemini.ts:228 | the options group: stated on whole responses by `ResponseRoundTrip.OptionsSectionOf` |
| ResponseParsing.AnswerSection | src/lib/gemini.ts:229 | the answer group: stated by `ResponseParsing.AnswerCaptureTakesFirstMatch` and `ResponseRoundTrip.AnswerOfTail` |
| ResponseParsing.SolutionSection | src/lib/gemini.ts:230 | the solution group: stated by `ResponseParsing.TailCaptureAt` and `ResponseRoundTrip.SolutionAt` |
| ResponseRoundTrip.LabelledBlock | src/lib/gemini.ts:227-228 | a label at its first occurrence, one whitespace character, a trimmed body, one whitespace character and a stop label: the trimmed group is the body |
| ResponseRoundTrip.QuestionBlock | src/lib/gemini.ts:227 | after `QUESTION: <q>` and a line break, a following `OPTIONS:` or `ANSWER:` ends the question, and the trimmed question is `q` |
| ResponseRoundTrip.OptionsSectionOf | src/lib/gemini.ts:228 | the options group of a response in the format of gemini.ts:166-173 exists, and trimmed it is the block of option lines |
| ResponseRoundTrip.AnswerOfTail | src/lib/gemini.ts:229-233 | after text without `ANSWER:` or `SOLUTION:`, the line `ANSWER: <a>` gives back a trimmed one-line answer `a`, the empty one included |
| ResponseRoundTrip.SolutionAt | src/lib/gemini.ts:230-234 | after the first `SOLUTION:` and one space, the solution is the trimmed rest |
| ResponseRoundTrip.SolutionOfTail | src/lib/gemini.ts:230-234 | the solution after the answer line is the trimmed solution written there |
| ResponseRoundTrip.OptionLineShape | src/lib/gemini.ts:240-244 | the line `<letter>) <option>` is one trimmed line with no later label, and it parses back to the option |
| ResponseRoundTrip.OptionEntriesEach | src/lib/gemini.ts:240-244 | lines that each parse back to one option give back the options, in order |
| ResponseRoundTrip.OptionBlockShape | src/lib/gemini.ts:166-173 | the lettered option lines, joined by line breaks, form a trimmed block with no `ANSWER:` and no `SOLUTION:` |
| ResponseRoundTrip.OptionBlockEntries | src/lib/gemini.ts:239-244 | the block of lettered option lines splits and parses back to the options |
| ResponseRoundTrip.SolutionResponseRoundTrip | src/lib/gemini.ts:257-265 | `parsePYQSolution` of `ANSWER: <a>`, a line break and `SOLUTION: <s>` (the format of gemini.ts:214-216) gives back `a` and `s` |
| ResponseRoundTrip.PlainResponseRoundTrip | src/lib/gemini.ts:226-255 | `parseGeneratedQuestion` of `QUESTION: <q>`, `ANSWER: <a>` and `SOLUTION: <s>` on their lines gives back `q`, `a` and `s`, and no options |
| ResponseRoundTrip.OptionsResponseRoundTrip | src/lib/gemini.ts:226-255 | with an `OPTIONS:` line and one to four lines `A) …` to `D) …` (the format of gemini.ts:166-173), it also gives back the options, for MCQ and MSQ only |
| ResponseParsing.EmptyOptionRoundTrip | src/lib/gemini.ts:242-244 | an option line lettered as at gemini.ts:191, with an empty option, gives back the empty option |
| ResponseParsing.NonEmptyOptionRoundTrip | src/lib/gemini.ts:242-244 | an option line lettered as at gemini.ts:191, with a trimmed non-empty option, gives back the option |
| ResponseParsing.LetteredOptionRoundTrip | src/lib/gemini.ts:242-244 | the markers the solution prompt puts before its first four options are exactly those the parser strips, so a trimmed option comes back |
| AnswerValidation.McqAnswerValid | src/lib/gemini.ts:268-276 | the MCQ rule, characterised by `McqAnswerValidIff`: one letter a–d or A–D with only whitespace around it |
| AnswerValidation.MsqAnswerValid | src/lib/gemini.ts:277-287 | the MSQ rule, characterised by `MsqAnswerCharacters` (only letters a–d or A–D, commas and whitespace) and `MsqAcceptsJoinedLetters` (every comma-joined list of letters) |
| AnswerValidation.ParsesAsNumber | src/lib/gemini.ts:288-292 | the NAT rule `!isNaN(parseFloat(answer))`, pinned down by `NumberAcceptedInteger`, `NumberAcceptedSigned`, `NumberAcceptedPoint` and `NumberRejected` |
| AnswerValidation.VerifyAnswer | src/lib/gemini.ts:267-303 | `verifyAnswer`, related to `verifyPYQAnswer` by `VerifyAnswerAgreesWithPYQ` and `SubjectiveRules`. `AcceptedTextHasSections` states what an accepted parse needs |
| AnswerValidation.VerifyPYQAnswer | src/lib/gemini.ts:305-329 | `verifyPYQAnswer`: the same answer rules as `verifyAnswer` for MCQ, MSQ and NAT (`VerifyAnswerAgreesWithPYQ`), and a non-empty answer otherwise (`SubjectiveRules`) |
| AnswerValidation.TrimAll | src/lib/gemini.ts:278 | `map(a => a.trim())`, element by element |
| AnswerValidation.McqAnswerValidIff | src/lib/gemini.ts:268-276 | an MCQ answer is accepted exactly when it is a single letter a–d or A–D surrounded only by whitespace |
| AnswerValidation.McqRejectsE | src/lib/gemini.ts:268-276 | `"E"` is not an MCQ answer |
| AnswerValidation.McqAnswerHasNoComma | src/lib/gemini.ts:270 | an accepted MCQ answer has no comma |
| AnswerValidation.McqAnswerIsMsqAnswer | src/lib/gemini.ts:268-287 | an accepted MCQ answer is also an accepted MSQ answer |
| AnswerValidation.MsqAnswerCharacters | src/lib/gemini.ts:277-287 | an accepted MSQ answer holds only whitespace, commas and the letters a–d or A–D |
| AnswerValidation.MsqAcceptsJoinedLetters | src/lib/gemini.ts:277-287 | any non-empty list of option letters joined with commas is accepted |
| AnswerValidation.MsqAcceptsTwoLetters | src/lib/gemini.ts:277-287 | `"A,C"` is accepted |
| AnswerValidation.MsqRejectsEmpty | src/lib/gemini.ts:278-286 | `""` is rejected, because split yields `[""]` |
| AnswerValidation.MsqRejectsTrailingComma | src/lib/gemini.ts:278-286 | `"A,"` is rejected, because of its empty last part |
| AnswerValidation.NumberAcceptedInteger | src/lib/gemini.ts:288-292 | `"42"` parses as a number |
| AnswerValidation.NumberAcceptedSigned | src/lib/gemini.ts:288-292 | `" -3.5"` parses as a number, after leading whitespace and a sign |
| AnswerValidation.NumberAcceptedPoint | src/lib/gemini.ts:288-292 | `".5e2"` parses as a number |
| AnswerValidation.NumberRejected | src/lib/gemini.ts:288-292 | `""`, `"."`, `"-"` and `"abc"` do not parse as numbers |
| AnswerValidation.VerifyAnswerAgreesWithPYQ | src/lib/gemini.ts:267-329 | for MCQ, MSQ and NAT, `verifyAnswer` is the `verifyPYQAnswer` answer rule plus the statement (at least 10) and solution (at least 20) length rules. It never looks at the options |
| AnswerValidation.SubjectiveRules | src/lib/gemini.ts:267-329 | a SUB answer is unchecked by `verifyAnswer` and needs to be non-empty in `verifyPYQAnswer` |
| AnswerValidation.AcceptedTextHasSections | src/lib/gemini.ts:295-300 | a text whose parse is accepted contains the QUESTION and SOLUTION labels |
| AnswerValidation.TrimUpperCommute | src/lib/gemini.ts:270 | `toUpperCase().trim()` equals `trim().toUpperCase()` |
| AnswerValidation.UpperOptionLetter | src/lib/gemini.ts:271-275 | an upper-cased string is one option letter of length 1 exactly when it is one character a–d or A–D |
| AnswerValidation.JoinedLettersUpper | src/lib/gemini.ts:278 | upper-casing leaves comma-joined option letters unchanged |
| AnswerValidation.JoinedLettersSplit | src/lib/gemini.ts:278 | comma-joined option letters split back into the letters |

## Left out

- The HTTP exchange (`fetch`, the JSON request body, `response.json()` and its
  indexing, gemini.ts:39-66) is foreign I/O. Each attempt's outcome comes from
  a script the caller supplies. A delivered outcome carries the text directly.
  A response whose JSON lacks the candidate path throws in the source, and
  here it is a `TransportFault` outcome.
- Loading keys from the environment, the empty-pool warning and all
  `console` logging (gemini.ts:1-5, 61, 68, 86, 105) are process
  configuration and output.
- Client.GeminiClient.constructor: it requires a non-empty key pool. With an
  empty pool the source throws on every call before any attempt. That case is
  stated at function level by `Client.EmptyPoolFailsAtOnce`.
- Concurrency: `currentKeyIndex` is shared by overlapping async calls in the
  source. The model runs one request at a time.
- Client.GeminiClient.Regenerate: the source restarts from prompt
  construction on every round. The builders are pure, so the model builds the
  prompt once and sends the same prompt each round.
- Liveness: the source regenerates without bound. Here the loop ends when the
  finite outcome script runs out, since every later attempt fails and the call
  throws. Only what a terminating run returns is proved. A run that never
  delivers an acceptable text is not modelled beyond its script.
- Weightages and totals are integers rather than JavaScript numbers.
  `Math.round` of the float quotient may differ from the exact rounding used
  here at .5 boundaries, and fractional weightages are not modelled.
- `toUpperCase` is modelled on ASCII letters only. `trim` and `\s` use the
  exact ECMAScript whitespace set. No non-ASCII character upper-cases to A–D, a
  comma or whitespace, so the validators' verdicts do not depend on this.
- `parseFloat` is modelled as a predicate on the numeric prefix (digits, a
  point and a digit, or `Infinity`, after whitespace and a sign). The value it
  reads is not modelled.
- The fixed wording of both prompts and the type-specific instruction texts
  (gemini.ts:127-183, 193-224) is free text for the model. Only what a prompt
  embeds is modelled.
- The `topicId` argument of `generateQuestion` and the `context` argument of
  `verifyAnswer` are unused by the source. The model carries `topicId` and
  drops the `context` argument.
- An example with more than four option lines is stated for every input by
  `ResponseParsing.OptionEntriesOfNonBlank` rather than on one literal text.
- ResponseParsing.AnswerCapture: its own contract gives the shape of the
  group only. Which occurrence of `ANSWER:` the group comes from, and what it
  holds there, is stated by `AnswerCaptureTakesFirstMatch`, `AnswerAt` and
  `AnswerAtLine`.
- ResponseRoundTrip.OptionsResponseRoundTrip: stated for one to four
  non-empty, trimmed, one-line options, as the format asks for. Texts whose
  parts hold a section label are not covered by the round-trip lemmas,
  because the first label occurrence decides each section.
- The model follows the code in these three places:
  - the options list is not capped at four entries;
  - a reconciled quota can be negative (`Weightage.ExampleNegativeQuota`);
  - `verifyAnswer` does not require a SUB answer to be non-empty
    (`AnswerValidation.SubjectiveRules`).
