/**
 * What the two prompt builders put into a prompt (src/lib/gemini.ts:112-224).
 * A prompt is kept as structured data: which excerpts and which lettered
 * options it embeds. Its fixed wording is free text for the model and is
 * not part of this model.
 */
module Prompts {
  import opened Wrappers

  /** `QuestionContext`: the scope named in every prompt. */
  datatype QuestionContext = QuestionContext(
    examName: string,
    courseName: string,
    subjectName: string,
    topicName: string)

  /**
   * One option line of a solution prompt: the UTF-16 code unit
   * `String.fromCharCode(65 + idx)` produces, then `) ` and the option.
   */
  datatype OptionLine = OptionLine(letter: int, text: string)

  datatype Prompt =
    | QuestionPrompt(
        questionType: string,
        context: QuestionContext,
        inspiration: seq<string>,     // previous-year excerpts, "do not copy"
        avoid: seq<string>)           // already generated, "create something fresh"
    | SolutionPrompt(
        questionStatement: string,
        questionType: string,
        context: QuestionContext,
        optionLines: Option<seq<OptionLine>>)

  /** `existingQuestions.slice(0, 5)`: the first five excerpts at most, in order. */
  function FirstExcerpts(existing: seq<string>): (r: seq<string>)
    ensures |r| == if |existing| < 5 then |existing| else 5
    ensures r == existing[..|r|]
  {
    if |existing| <= 5 then existing else existing[..5]
  }

  /** `alreadyGeneratedQuestions.slice(-3)`: the last three at most, in order. */
  function LastExcerpts(generated: seq<string>): (r: seq<string>)
    ensures |r| == if |generated| < 3 then |generated| else 3
    ensures r == generated[|generated| - |r|..]
  {
    if |generated| <= 3 then generated else generated[|generated| - 3..]
  }

  /** `options.map((opt, idx) => `${String.fromCharCode(65 + idx)}) ${opt}`)`. */
  function LetterOptions(options: seq<string>): (lines: seq<OptionLine>)
    ensures |lines| == |options|
    ensures forall i :: 0 <= i < |options| ==>
      lines[i].text == options[i] && 0 <= lines[i].letter < 0x1_0000
    ensures forall i :: 0 <= i < |options| && i < 26 ==> lines[i].letter == 'A' as int + i
    ensures forall i :: 0 <= i < |options| ==> lines[i].letter == (65 + i) % 0x1_0000
  {
    seq(|options|, i requires 0 <= i < |options| => OptionLine((65 + i) % 0x1_0000, options[i]))
  }

  /** The text of an option line whose letter is a character of its own. */
  function Render(line: OptionLine): string
    requires 0 <= line.letter < 0xD800
  {
    [line.letter as char] + ") " + line.text
  }

  /** `buildQuestionPrompt`. */
  function BuildQuestionPrompt(
    questionType: string,
    existingQuestions: seq<string>,
    alreadyGeneratedQuestions: seq<string>,
    context: QuestionContext): (p: Prompt)
    ensures p.QuestionPrompt? && p.questionType == questionType && p.context == context
    ensures |p.inspiration| <= 5 && |p.avoid| <= 3
    ensures existingQuestions != [] ==> p.inspiration != []
    ensures alreadyGeneratedQuestions != [] ==> p.avoid != []
    ensures p.inspiration == FirstExcerpts(existingQuestions)
    ensures p.avoid == LastExcerpts(alreadyGeneratedQuestions)
  {
    QuestionPrompt(questionType, context, FirstExcerpts(existingQuestions), LastExcerpts(alreadyGeneratedQuestions))
  }

  /** `buildPYQSolutionPrompt`; an absent options list adds no OPTIONS block. */
  function BuildPYQSolutionPrompt(
    questionStatement: string,
    questionType: string,
    options: Option<seq<string>>,
    context: QuestionContext): (p: Prompt)
    ensures p.SolutionPrompt? && p.questionStatement == questionStatement
    ensures p.questionType == questionType && p.context == context
    ensures p.optionLines.Some? <==> options.Some?
    ensures options.Some? ==> |p.optionLines.value| == |options.value|
    ensures options.Some? ==> p.optionLines == Some(LetterOptions(options.value))
  {
    SolutionPrompt(questionStatement, questionType, context,
      match options
      case Some(opts) => Some(LetterOptions(opts))
      case None => None)
  }
}
