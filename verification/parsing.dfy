/**
 * Label-delimited parsing of the generated text (src/lib/gemini.ts:226-265).
 *
 * Each regex of the source is modelled as the search the regex engine
 * performs: it tries the occurrences of the label from left to right, lets
 * `\s*` take the whitespace after the label, then extends the lazy group
 * until its lookahead (or the end of the text) matches. A section that does
 * not match becomes the empty string.
 */
module ResponseParsing {
  import opened Wrappers
  import opened JsStrings
  import Prompts

  /** `GeneratedQuestion`; `options` is `None` where the source leaves it undefined. */
  datatype GeneratedQuestion = GeneratedQuestion(
    questionStatement: string,
    options: Option<seq<string>>,
    answer: string,
    solution: string,
    questionType: string)

  /** The `{ answer, solution }` record of a solution request. */
  datatype PyqSolution = PyqSolution(answer: string, solution: string)

  /** Where `\s*` stops when it starts at `i`. */
  function SkipWhitespace(text: string, i: nat): (e: nat)
    requires i <= |text|
    ensures i <= e <= |text|
    ensures forall j :: i <= j < e ==> IsWhitespace(text[j])
    ensures e < |text| ==> !IsWhitespace(text[e])
  {
    var k := LeadingWhitespace(text[i..]);
    assert forall j :: i <= j < i + k ==> text[j] == text[i..][j - i];
    i + k
  }

  /** The first position at or after `from` where one of `stops` occurs: the lookahead `(?=s1|s2)`. */
  function FirstStop(text: string, stops: seq<string>, from: nat): (r: Option<nat>)
    decreases |text| + 1 - from
    ensures r.Some? ==> from <= r.value <= |text|
    ensures r.Some? ==> exists stop :: stop in stops && OccursAt(text, stop, r.value)
    ensures forall j, stop :: from <= j && (r.None? || j < r.value) && stop in stops ==> !OccursAt(text, stop, j)
  {
    if from > |text| then None
    else if exists stop :: stop in stops && OccursAt(text, stop, from) then Some(from)
    else FirstStop(text, stops, from + 1)
  }

  /**
   * The group of `label\s*([\s\S]*?)(?=stop1|stop2…)` when the match starts at
   * the occurrence `p` of the label: `\s*` takes the whitespace after it, and
   * the lazy group runs to the first stop label, if one follows.
   */
  function CaptureAt(text: string, tag: string, stops: seq<string>, p: nat): Option<string>
    requires OccursAt(text, tag, p)
  {
    var e := SkipWhitespace(text, p + |tag|);
    match FirstStop(text, stops, e)
    case Some(j) => Some(text[e..j])
    case None => None
  }

  /**
   * The group of `label\s*([\s\S]*?)(?=stop1|stop2…)`: the capture at the first
   * occurrence of the label (at or after `from`) where the match succeeds.
   */
  function LazyCapture(text: string, tag: string, stops: seq<string>, from: nat): (r: Option<string>)
    decreases |text| + 1 - from
    ensures r.Some? ==> Contains(text, tag)
    ensures r.Some? ==> exists p: nat :: (from <= p && OccursAt(text, tag, p) && CaptureAt(text, tag, stops, p) == r
      && forall p' :: from <= p' < p && OccursAt(text, tag, p') ==> CaptureAt(text, tag, stops, p').None?)
    ensures r.None? ==> forall p :: from <= p && OccursAt(text, tag, p) ==> CaptureAt(text, tag, stops, p).None?
  {
    match IndexOf(text, tag, from)
    case None => None
    case Some(p) =>
      var c := CaptureAt(text, tag, stops, p);
      if c.Some? then c else LazyCapture(text, tag, stops, p + 1)
  }

  /** The lookahead first holds at `j` when a stop occurs there and none occurs before it. */
  lemma FirstStopAt(text: string, stops: seq<string>, from: nat, j: nat, stop: string)
    requires from <= j && stop in stops && OccursAt(text, stop, j)
    requires forall i, st :: from <= i < j && st in stops ==> !OccursAt(text, st, i)
    ensures FirstStop(text, stops, from) == Some(j)
  {
    var r := FirstStop(text, stops, from);
    assert r.Some? ==> !(r.value < j) && !(j < r.value);
  }

  /** The group is the capture at the first occurrence of the label, at or after `from`, when the match succeeds there. */
  lemma LazyCaptureTakesFirstMatch(text: string, tag: string, stops: seq<string>, from: nat, p: nat)
    requires from <= p && OccursAt(text, tag, p)
    requires forall i :: from <= i < p ==> !OccursAt(text, tag, i)
    requires CaptureAt(text, tag, stops, p).Some?
    ensures LazyCapture(text, tag, stops, from) == CaptureAt(text, tag, stops, p)
  {
    IndexOfFirst(text, tag, from, p);
  }

  /** `p` is where `text.search(tag)` would point: the first occurrence of `tag`. */
  ghost predicate FirstOccurrence(text: string, tag: string, p: nat)
  {
    OccursAt(text, tag, p) && forall i :: 0 <= i < p ==> !OccursAt(text, tag, i)
  }

  /** The group of `label\s*([\s\S]*?)$`: everything after the first occurrence of the label. */
  function TailCapture(text: string, tag: string): (r: Option<string>)
    ensures r.Some? ==> Contains(text, tag)
    ensures Contains(text, tag) ==> r.Some?
    ensures r.Some? ==> exists p: nat :: (FirstOccurrence(text, tag, p)
      && r.value == text[SkipWhitespace(text, p + |tag|)..])
  {
    match IndexOf(text, tag, 0)
    case None => None
    case Some(p) =>
      assert FirstOccurrence(text, tag, p);
      Some(text[SkipWhitespace(text, p + |tag|)..])
  }

  /** The lookahead `(?=\n|SOLUTION:)` holds at `i`. */
  predicate AnswerStop(text: string, i: nat)
    requires i < |text|
  {
    text[i] == '\n' || OccursAt(text, "SOLUTION:", i)
  }

  /** The tail capture starts after the first occurrence of the label and its whitespace. */
  lemma TailCaptureAt(text: string, tag: string, p: nat)
    requires FirstOccurrence(text, tag, p)
    ensures TailCapture(text, tag) == Some(text[SkipWhitespace(text, p + |tag|)..])
  {
    IndexOfFirst(text, tag, 0, p);
  }

  /**
   * Where the lazy `(.*?)` of the ANSWER regex stops when it starts at `j`:
   * the first newline or `SOLUTION:`, provided no other line terminator
   * (which `.` cannot match) comes first.
   */
  function LineEnd(text: string, j: nat): (r: Option<nat>)
    requires j <= |text|
    decreases |text| - j
    ensures r.Some? ==> j <= r.value < |text|
    ensures r.Some? ==> AnswerStop(text, r.value)
    ensures r.Some? ==> forall i :: j <= i < r.value ==> !IsLineTerminator(text[i])
    ensures r.Some? ==> forall i :: j <= i < r.value ==> !OccursAt(text, "SOLUTION:", i)
    ensures r.None? ==> forall i :: j <= i < |text| && AnswerStop(text, i) ==>
      exists k :: j <= k < i && IsLineTerminator(text[k])
  {
    if j == |text| then None
    else if AnswerStop(text, j) then Some(j)
    else if IsLineTerminator(text[j]) then None
    else LineEnd(text, j + 1)
  }

  /** No occurrence of `pat` starts in `[lo, hi)` of `text`, so none occurs in that slice. */
  lemma NoOccurrenceInSlice(text: string, lo: nat, hi: nat, pat: string)
    requires lo <= hi <= |text|
    requires forall i :: lo <= i < hi ==> !OccursAt(text, pat, i)
    requires |pat| > 0
    ensures !Contains(text[lo..hi], pat)
  {
    forall i | 0 <= i <= hi - lo && OccursAt(text[lo..hi], pat, i) ensures false {
      OccursInSlice(text, lo, hi, pat, i);
    }
  }

  /**
   * The group of `ANSWER:\s*(.*?)(?=\n|SOLUTION:)` when the match starts at the
   * occurrence `p` of the label. When the rest of the line does not end in a
   * newline or `SOLUTION:`, the engine backtracks into the whitespace `\s*`
   * took: if that whitespace holds a newline, the group is empty just before
   * it; otherwise the match fails here.
   */
  function AnswerAt(text: string, p: nat): (r: Option<string>)
    requires OccursAt(text, "ANSWER:", p)
    ensures r.Some? ==> forall i :: 0 <= i < |r.value| ==> !IsLineTerminator(r.value[i])
    ensures r.Some? ==> !Contains(r.value, "SOLUTION:")
  {
    var start := p + 7;
    var e := SkipWhitespace(text, start);
    match LineEnd(text, e)
    case Some(j) =>
      NoOccurrenceInSlice(text, e, j, "SOLUTION:");
      Some(text[e..j])
    case None =>
      if exists k :: start <= k < e && text[k] == '\n' then Some("") else None
  }

  /** The group of the ANSWER regex: the capture at the first occurrence of the label where the match succeeds. */
  function AnswerCapture(text: string, from: nat): (r: Option<string>)
    decreases |text| + 1 - from
    ensures r.Some? ==> Contains(text, "ANSWER:")
    ensures r.Some? ==> forall i :: 0 <= i < |r.value| ==> !IsLineTerminator(r.value[i])
    ensures r.Some? ==> !Contains(r.value, "SOLUTION:")
  {
    match IndexOf(text, "ANSWER:", from)
    case None => None
    case Some(p) =>
      var c := AnswerAt(text, p);
      if c.Some? then c else AnswerCapture(text, p + 1)
  }

  /** When the line after `ANSWER:` ends in a newline or `SOLUTION:`, the group is that line. */
  lemma AnswerAtLine(text: string, p: nat, j: nat)
    requires OccursAt(text, "ANSWER:", p)
    requires LineEnd(text, SkipWhitespace(text, p + 7)) == Some(j)
    ensures AnswerAt(text, p) == Some(text[SkipWhitespace(text, p + 7)..j])
  {
  }

  /**
   * The ANSWER group is the capture at the first occurrence of the label, at or
   * after `from`, when the match succeeds there.
   */
  lemma AnswerCaptureTakesFirstMatch(text: string, from: nat, p: nat)
    requires from <= p && OccursAt(text, "ANSWER:", p)
    requires forall i :: from <= i < p ==> !OccursAt(text, "ANSWER:", i)
    requires AnswerAt(text, p).Some?
    ensures AnswerCapture(text, from) == AnswerAt(text, p)
  {
    IndexOfFirst(text, "ANSWER:", from, p);
  }

  /** `match ? match[1].trim() : ''`. */
  function TrimmedOrEmpty(m: Option<string>): (r: string)
    ensures IsTrimmed(r)
    ensures m.None? ==> r == ""
  {
    match m
    case Some(c) => Trim(c)
    case None => ""
  }

  /** Trimming keeps a slice, so it adds no line terminator and no occurrence. */
  lemma TrimKeepsAnswerShape(c: string)
    requires forall i :: 0 <= i < |c| ==> !IsLineTerminator(c[i])
    requires !Contains(c, "SOLUTION:")
    ensures forall i :: 0 <= i < |Trim(c)| ==> !IsLineTerminator(Trim(c)[i])
    ensures !Contains(Trim(c), "SOLUTION:")
  {
    var b := TrimBounds(c);
    assert Trim(c) == c[b.0..b.1];
    forall i | 0 <= i <= b.1 - b.0 && OccursAt(c[b.0..b.1], "SOLUTION:", i) ensures false {
      OccursInSlice(c, b.0, b.1, "SOLUTION:", i);
    }
  }

  function QuestionSection(text: string): Option<string> {
    LazyCapture(text, "QUESTION:", ["OPTIONS:", "ANSWER:"], 0)
  }

  function OptionsSection(text: string): Option<string> {
    LazyCapture(text, "OPTIONS:", ["ANSWER:"], 0)
  }

  function AnswerSection(text: string): Option<string> {
    AnswerCapture(text, 0)
  }

  function SolutionSection(text: string): Option<string> {
    TailCapture(text, "SOLUTION:")
  }

  /** The trimmed answer: one line, without `SOLUTION:`, empty when the section is missing. */
  function ParseAnswer(text: string): (answer: string)
    ensures IsTrimmed(answer)
    ensures !Contains(text, "ANSWER:") ==> answer == ""
    ensures forall i :: 0 <= i < |answer| ==> !IsLineTerminator(answer[i])
    ensures !Contains(answer, "SOLUTION:")
  {
    match AnswerSection(text)
    case Some(c) => TrimKeepsAnswerShape(c); Trim(c)
    case None => ""
  }

  /** `opt.replace(/^[A-D]\)\s*\/, '')`: drops one leading option marker and the whitespace after it. */
  function StripMarker(s: string): (r: string)
    ensures r == s || (|s| >= 2 && 'A' <= s[0] <= 'D' && s[1] == ')' && |r| <= |s| - 2)
    ensures r == s[|s| - |r|..]
    ensures forall i :: 2 <= i < |s| - |r| ==> IsWhitespace(s[i])
    ensures r != s && r != [] ==> !IsWhitespace(r[0])
    ensures |s| >= 2 && 'A' <= s[0] <= 'D' && s[1] == ')' ==> |r| <= |s| - 2
  {
    if |s| >= 2 && 'A' <= s[0] <= 'D' && s[1] == ')' then s[SkipWhitespace(s, 2)..] else s
  }

  /**
   * `.split('\n').map(opt => opt.trim()).filter(opt => opt.length > 0).map(StripMarker)`:
   * one entry per non-blank line, in order.
   */
  function OptionEntries(lines: seq<string>): (entries: seq<string>)
    ensures |entries| <= |lines|
    ensures forall e :: e in entries ==>
      exists k :: 0 <= k < |lines| && Trim(lines[k]) != "" && e == StripMarker(Trim(lines[k]))
  {
    if lines == [] then [] else OptionEntry(lines[0]) + OptionEntries(lines[1..])
  }

  /** What one line contributes: nothing when blank, else its trimmed text without marker. */
  function OptionEntry(line: string): (entry: seq<string>)
    ensures |entry| <= 1
    ensures entry == [] <==> Trim(line) == ""
    ensures Trim(line) != "" ==> entry == [StripMarker(Trim(line))]
  {
    var t := Trim(line);
    if t == "" then [] else [StripMarker(t)]
  }

  /** The entries of a block are those of its parts, in the same order. */
  lemma {:induction false} OptionEntriesAppend(a: seq<string>, b: seq<string>)
    ensures OptionEntries(a + b) == OptionEntries(a) + OptionEntries(b)
  {
    if a == [] {
      assert a + b == b;
    } else {
      assert (a + b)[0] == a[0];
      assert (a + b)[1..] == a[1..] + b;
      OptionEntriesAppend(a[1..], b);
    }
  }

  /** The options list, set only for MCQ and MSQ when an `OPTIONS: … ANSWER:` block exists. */
  function ParseOptions(text: string, questionType: string): (options: Option<seq<string>>)
    ensures options.Some? <==> (questionType == "MCQ" || questionType == "MSQ") && OptionsSection(text).Some?
    ensures !Contains(text, "OPTIONS:") ==> options.None?
  {
    if questionType == "MCQ" || questionType == "MSQ" then
      match OptionsSection(text)
      case Some(block) => Some(OptionEntries(Split(Trim(block), '\n')))
      case None => None
    else None
  }

  /** `parseGeneratedQuestion`. */
  function ParseGeneratedQuestion(text: string, questionType: string): (q: GeneratedQuestion)
    ensures q.questionType == questionType
    ensures IsTrimmed(q.questionStatement) && IsTrimmed(q.answer) && IsTrimmed(q.solution)
    ensures !Contains(text, "QUESTION:") ==> q.questionStatement == ""
    ensures !Contains(text, "ANSWER:") ==> q.answer == ""
    ensures !Contains(text, "SOLUTION:") ==> q.solution == ""
    ensures forall i :: 0 <= i < |q.answer| ==> !IsLineTerminator(q.answer[i])
    ensures !Contains(q.answer, "SOLUTION:")
    ensures q.options.Some? <==> (questionType == "MCQ" || questionType == "MSQ") && OptionsSection(text).Some?
  {
    GeneratedQuestion(
      TrimmedOrEmpty(QuestionSection(text)),
      ParseOptions(text, questionType),
      ParseAnswer(text),
      TrimmedOrEmpty(SolutionSection(text)),
      questionType)
  }

  /** `parsePYQSolution`: the same answer and solution as `parseGeneratedQuestion` finds. */
  function ParsePYQSolution(text: string, questionType: string): (r: PyqSolution)
    ensures r.answer == ParseGeneratedQuestion(text, questionType).answer
    ensures r.solution == ParseGeneratedQuestion(text, questionType).solution
    ensures !Contains(text, "ANSWER:") ==> r.answer == ""
    ensures !Contains(text, "SOLUTION:") ==> r.solution == ""
  {
    PyqSolution(ParseAnswer(text), TrimmedOrEmpty(SolutionSection(text)))
  }

  /** Only one marker is removed: a second one stays in the option. */
  lemma StripMarkerRemovesOneMarker()
    ensures StripMarker("A) B) x") == "B) x"
  {
    assert SkipWhitespace("A) B) x", 2) == 3;
  }

  /** Every non-blank line gives one entry: the list is not capped at four options. */
  lemma {:induction false} OptionEntriesOfNonBlank(lines: seq<string>)
    requires forall i :: 0 <= i < |lines| ==> Trim(lines[i]) != ""
    ensures |OptionEntries(lines)| == |lines|
    ensures forall i :: 0 <= i < |lines| ==> OptionEntries(lines)[i] == StripMarker(Trim(lines[i]))
  {
    if lines != [] {
      assert forall i :: 0 <= i < |lines| - 1 ==> lines[1..][i] == lines[i + 1];
      OptionEntriesOfNonBlank(lines[1..]);
      assert OptionEntry(lines[0]) == [StripMarker(Trim(lines[0]))];
      assert OptionEntries(lines) == [StripMarker(Trim(lines[0]))] + OptionEntries(lines[1..]);
    }
  }

  /** A rendered option line with an empty option trims to its bare marker, which is removed whole. */
  lemma EmptyOptionRoundTrip(s: string)
    requires |s| == 3 && 'A' <= s[0] <= 'D' && s[1] == ')' && s[2] == ' '
    ensures StripMarker(Trim(s)) == []
  {
    assert s[..2][1] == ')';
    assert TrailingWhitespace(s[..2]) == 0;
    assert TrailingWhitespace(s) == 1;
    assert TrimBounds(s) == (0, 2);
    assert Trim(s) == s[..2];
  }

  /** A rendered option line with a trimmed, non-empty option gives the option back. */
  lemma NonEmptyOptionRoundTrip(s: string, o: string)
    requires |s| >= 3 && 'A' <= s[0] <= 'D' && s[1] == ')' && s[2] == ' '
    requires s[3..] == o && o != [] && IsTrimmed(o)
    ensures StripMarker(Trim(s)) == o
  {
    assert !IsWhitespace(s[|s| - 1]) by { assert s[|s| - 1] == o[|o| - 1]; }
    assert TrimBounds(s) == (0, |s|);
    assert Trim(s) == s;
    assert SkipWhitespace(s, 2) == 3;
  }

  /**
   * The letters a solution prompt puts before its first four options are
   * exactly the markers the option parser removes: a trimmed option comes back.
   */
  lemma LetteredOptionRoundTrip(options: seq<string>, i: nat)
    requires i < |options| && i < 4
    requires IsTrimmed(options[i])
    ensures var line := Prompts.LetterOptions(options)[i];
      0 <= line.letter < 0xD800 && StripMarker(Trim(Prompts.Render(line))) == options[i]
  {
    var line := Prompts.LetterOptions(options)[i];
    var o := options[i];
    var s := Prompts.Render(line);
    assert s == [line.letter as char] + [')', ' '] + o;
    if o == [] {
      EmptyOptionRoundTrip(s);
    } else {
      assert s[3..] == o;
      NonEmptyOptionRoundTrip(s, o);
    }
  }
}
