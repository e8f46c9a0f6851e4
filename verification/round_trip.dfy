/**
 * The response formats the prompts ask for (src/lib/gemini.ts:166-173 and
 * 214-216) parse back into what was written in them: the labelled sections
 * of a well-formed response come back unchanged.
 */
module ResponseRoundTrip {
  import opened Wrappers
  import opened JsStrings
  import opened ResponseParsing
  import Prompts

  /** None of the four section labels occurs in `t`. */
  predicate Unlabelled(t: string) {
    && !Contains(t, "QUESTION:") && !Contains(t, "OPTIONS:")
    && !Contains(t, "ANSWER:") && !Contains(t, "SOLUTION:")
  }

  /** `ANSWER: <a>`, a line break, then `SOLUTION: <s>`: how every response ends. */
  function AnswerTail(a: string, s: string): string {
    "ANSWER:" + [' '] + (a + ['\n'] + ("SOLUTION:" + [' '] + s))
  }

  /** A mismatching character rules an occurrence out. */
  lemma Mismatch(s: string, pat: string, i: nat, k: nat)
    requires k < |pat| && i + k < |s| && s[i + k] != pat[k]
    ensures !OccursAt(s, pat, i)
  {
  }

  /** The labels hold neither a space nor a line break. */
  lemma LabelsHaveNoBreaks()
    ensures ' ' !in "OPTIONS:" && ' ' !in "ANSWER:" && ' ' !in "SOLUTION:"
    ensures '\n' !in "OPTIONS:" && '\n' !in "ANSWER:" && '\n' !in "SOLUTION:"
  {
  }

  /** The question label holds no `ANSWER:`. */
  lemma QuestionLabelHasNoAnswer()
    ensures !Contains("QUESTION:", "ANSWER:")
  {
    Mismatch("QUESTION:", "ANSWER:", 0, 0);
    Mismatch("QUESTION:", "ANSWER:", 1, 0);
    Mismatch("QUESTION:", "ANSWER:", 2, 0);
  }

  /** The question label holds no other label. */
  lemma QuestionLabelApart()
    ensures !Contains("QUESTION:", "OPTIONS:") && !Contains("QUESTION:", "ANSWER:")
    ensures !Contains("QUESTION:", "SOLUTION:")
  {
    Mismatch("QUESTION:", "OPTIONS:", 0, 0);
    Mismatch("QUESTION:", "OPTIONS:", 1, 0);
    QuestionLabelHasNoAnswer();
    Mismatch("QUESTION:", "SOLUTION:", 0, 0);
  }

  /** The other labels hold no label that can follow them. */
  lemma OtherLabelsApart()
    ensures !Contains("OPTIONS:", "ANSWER:") && !Contains("OPTIONS:", "SOLUTION:")
    ensures !Contains("ANSWER:", "SOLUTION:") && !Contains("ANSWER:", "OPTIONS:")
    ensures !Contains("SOLUTION:", "OPTIONS:")
  {
    Mismatch("OPTIONS:", "ANSWER:", 0, 0);
    Mismatch("OPTIONS:", "ANSWER:", 1, 0);
    Mismatch("SOLUTION:", "OPTIONS:", 0, 0);
    Mismatch("SOLUTION:", "OPTIONS:", 1, 1);
  }

  /** An occurrence past the prefix is an occurrence in the rest. */
  lemma OccursInRest(pre: string, rest: string, pat: string, i: int)
    requires OccursAt(pre + rest, pat, i) && i >= |pre|
    ensures OccursAt(rest, pat, i - |pre|)
  {
    forall k | 0 <= k < |pat| ensures rest[i - |pre| + k] == pat[k] {
      assert (pre + rest)[i + k] == rest[i - |pre| + k];
    }
  }

  /** Where the labels of the tail are: `ANSWER:` first, `SOLUTION:` only after the answer. */
  lemma TailLabels(a: string, s: string)
    requires !Contains(a, "SOLUTION:")
    ensures OccursAt(AnswerTail(a, s), "ANSWER:", 0)
    ensures OccursAt(AnswerTail(a, s), "SOLUTION:", |a| + 9)
    ensures forall i :: OccursAt(AnswerTail(a, s), "SOLUTION:", i) ==> i >= |a| + 9
  {
    LabelsHaveNoBreaks();
    OtherLabelsApart();
    var rest2 := "SOLUTION:" + [' '] + s;
    var rest1 := a + ['\n'] + rest2;
    assert AnswerTail(a, s) == "ANSWER:" + [' '] + rest1;
    assert OccursAt(rest2, "SOLUTION:", 0);
    OccursAfter("ANSWER:" + [' '] + (a + ['\n']), rest2, "SOLUTION:", 0);
    assert "ANSWER:" + [' '] + (a + ['\n']) + rest2 == AnswerTail(a, s);
    OccurrencesBeyond("ANSWER:", ' ', rest1, "SOLUTION:");
    OccurrencesBeyond(a, '\n', rest2, "SOLUTION:");
  }

  /** The lazy answer group stops at the first newline or `SOLUTION:` after `j` when nothing else ends the line first. */
  lemma LineEndAt(text: string, j: nat, n: nat)
    requires j <= n < |text| && AnswerStop(text, n)
    requires forall i :: j <= i < n ==> !IsLineTerminator(text[i]) && !OccursAt(text, "SOLUTION:", i)
    ensures LineEnd(text, j) == Some(n)
  {
    var r := LineEnd(text, j);
    assert r.Some? ==> !(r.value < n) && !(n < r.value);
  }

  /** The facts about the tail after a prefix that the answer regex relies on. */
  ghost predicate TailAfter(text: string, p: nat, a: string)
  {
    && p + |a| + 18 <= |text|
    && OccursAt(text, "ANSWER:", p) && text[p + 7] == ' '
    && (forall i :: p + 8 <= i < p + 8 + |a| ==> text[i] == a[i - p - 8])
    && text[p + 8 + |a|] == '\n'
    && OccursAt(text, "SOLUTION:", p + |a| + 9)
    && (forall i :: OccursAt(text, "SOLUTION:", i) ==> i >= p + |a| + 9)
  }

  /** An empty answer: `\s*` runs over the line break, and the group is empty right before `SOLUTION:`. */
  lemma EmptyAnswerAt(text: string, p: nat)
    requires TailAfter(text, p, [])
    ensures AnswerAt(text, p) == Some([])
  {
    assert text[p + 9 + 0] == "SOLUTION:"[0] == 'S';
    var e := SkipWhitespace(text, p + 7);
    assert e == p + 9;
    assert LineEnd(text, e) == Some(e);
    AnswerAtLine(text, p, e);
    assert text[e..e] == [];
  }

  /** A non-empty answer: the group is the answer line, up to its line break. */
  lemma AnswerLineAt(text: string, p: nat, a: string)
    requires TailAfter(text, p, a) && a != [] && IsTrimmed(a)
    requires forall i :: 0 <= i < |a| ==> !IsLineTerminator(a[i])
    ensures AnswerAt(text, p) == Some(a)
  {
    var e := SkipWhitespace(text, p + 7);
    assert text[p + 8] == a[0];
    assert e == p + 8;
    LineEndAt(text, e, p + 8 + |a|);
    AnswerAtLine(text, p, p + 8 + |a|);
    assert text[e..p + 8 + |a|] == a;
  }

  /**
   * After a prefix holding no `ANSWER:` and no `SOLUTION:`, the answer line of
   * the tail gives back the trimmed, one-line answer written into it.
   */
  lemma AnswerOfTail(pre: string, a: string, s: string)
    requires forall i :: 0 <= i < |pre| ==> !OccursAt(pre + AnswerTail(a, s), "ANSWER:", i)
    requires forall i :: 0 <= i < |pre| ==> !OccursAt(pre + AnswerTail(a, s), "SOLUTION:", i)
    requires IsTrimmed(a) && !Contains(a, "SOLUTION:")
    requires forall i :: 0 <= i < |a| ==> !IsLineTerminator(a[i])
    ensures ParseAnswer(pre + AnswerTail(a, s)) == a
  {
    var tail := AnswerTail(a, s);
    var text := pre + tail;
    var p := |pre|;
    TailLabels(a, s);
    OccursAfter(pre, tail, "ANSWER:", 0);
    OccursAfter(pre, tail, "SOLUTION:", |a| + 9);
    forall i | OccursAt(text, "SOLUTION:", i) ensures i >= p + |a| + 9 {
      OccursInRest(pre, tail, "SOLUTION:", i);
    }
    assert forall i :: p + 8 <= i < p + 8 + |a| ==> text[i] == a[i - p - 8];
    assert TailAfter(text, p, a);
    if a == [] {
      EmptyAnswerAt(text, p);
    } else {
      AnswerLineAt(text, p, a);
    }
    AnswerCaptureTakesFirstMatch(text, 0, p);
    TrimOfTrimmed(a);
  }

  /** The solution section after the first `SOLUTION:` and one space is the trimmed rest. */
  lemma SolutionAt(text: string, q: nat, s: string)
    requires FirstOccurrence(text, "SOLUTION:", q)
    requires text[q + 9..] == [' '] + s && IsTrimmed(s)
    ensures TrimmedOrEmpty(SolutionSection(text)) == s
  {
    TailCaptureAt(text, "SOLUTION:", q);
    var e := SkipWhitespace(text, q + 9);
    assert text[q + 9] == ' ';
    if s == [] {
      assert e == |text|;
    } else {
      assert text[q + 10] == s[0];
      assert e == q + 10;
    }
    assert text[e..] == s;
    TrimOfTrimmed(s);
    TrimmedSome(SolutionSection(text), text[e..], s);
  }

  /** After a prefix holding no `SOLUTION:`, the solution section is the trimmed text after the label. */
  lemma SolutionOfTail(pre: string, a: string, s: string)
    requires forall i :: 0 <= i < |pre| ==> !OccursAt(pre + AnswerTail(a, s), "SOLUTION:", i)
    requires !Contains(a, "SOLUTION:") && IsTrimmed(s)
    ensures TrimmedOrEmpty(SolutionSection(pre + AnswerTail(a, s))) == s
  {
    var tail := AnswerTail(a, s);
    var text := pre + tail;
    var q := |pre| + |a| + 9;
    TailLabels(a, s);
    OccursAfter(pre, tail, "SOLUTION:", |a| + 9);
    forall i | OccursAt(text, "SOLUTION:", i) ensures i >= q {
      OccursInRest(pre, tail, "SOLUTION:", i);
    }
    assert text[q + 9..] == [' '] + s;
    SolutionAt(text, q, s);
  }

  /** What `\s*` leaves of one whitespace character, a trimmed body and another, trims to the body. */
  lemma TrimAfterSkip(text: string, b: nat, e: nat, body: string)
    requires b <= e <= b + 1 && b + |body| + 2 <= |text|
    requires forall i :: b <= i < e ==> IsWhitespace(text[i])
    requires IsWhitespace(text[b]) && IsWhitespace(text[b + |body| + 1])
    requires text[b + 1..b + |body| + 1] == body && IsTrimmed(body)
    ensures Trim(text[e..b + |body| + 2]) == body
  {
    var j := b + |body| + 2;
    assert text[e..j] == text[e..b + 1] + body + [text[j - 1]];
    TrimPadded(text[e..b + 1], body, [text[j - 1]]);
  }

  /** A capture that trims to `body` gives `body` to `match ? match[1].trim() : ''`. */
  lemma TrimmedSome(m: Option<string>, v: string, body: string)
    requires m == Some(v) && Trim(v) == body
    ensures TrimmedOrEmpty(m) == body
  {
  }

  /** The capture at an occurrence `p` of the label, `b` past it, runs up to the first stop after it. */
  lemma BlockCapture(text: string, tag: string, stops: seq<string>, p: nat, b: nat, j: nat, stop: string, body: string)
    requires OccursAt(text, tag, p) && b == p + |tag|
    requires SkipWhitespace(text, b) <= j
    requires stop in stops && OccursAt(text, stop, j)
    requires forall i, st :: b <= i < j && st in stops ==> !OccursAt(text, st, i)
    requires Trim(text[SkipWhitespace(text, b)..j]) == body
    ensures CaptureAt(text, tag, stops, p).Some?
    ensures TrimmedOrEmpty(CaptureAt(text, tag, stops, p)) == body
  {
    var v := text[SkipWhitespace(text, b)..j];
    FirstStopAt(text, stops, SkipWhitespace(text, b), j, stop);
    TrimmedSome(CaptureAt(text, tag, stops, p), v, body);
  }

  /** `\s*` stops inside a block of whitespace, trimmed body and whitespace, and what it leaves trims to the body. */
  lemma SkippedBlock(text: string, b: nat, j: nat, body: string)
    requires j == b + |body| + 2 && j < |text|
    requires IsWhitespace(text[b]) && IsWhitespace(text[j - 1])
    requires text[b + 1..j - 1] == body && IsTrimmed(body)
    requires !IsWhitespace(text[j])
    ensures SkipWhitespace(text, b) <= j
    ensures Trim(text[SkipWhitespace(text, b)..j]) == body
  {
    var e := SkipWhitespace(text, b);
    assert forall i :: 0 <= i < |body| ==> text[b + 1 + i] == body[i];
    if e <= b + 1 {
      TrimAfterSkip(text, b, e, body);
    } else {
      assert e == j;
      assert text[e..j] == [];
    }
  }

  /**
   * A block written as the label, one whitespace character, a trimmed body and
   * another whitespace character, followed by a stop label, is captured at the
   * label as the body once trimmed.
   */
  lemma LabelledBlockAt(text: string, tag: string, stops: seq<string>, p: nat, body: string, stop: string)
    requires OccursAt(text, tag, p)
    requires p + |tag| + |body| + 2 < |text|
    requires IsWhitespace(text[p + |tag|]) && IsWhitespace(text[p + |tag| + |body| + 1])
    requires text[p + |tag| + 1..p + |tag| + |body| + 1] == body && IsTrimmed(body)
    requires stop in stops && OccursAt(text, stop, p + |tag| + |body| + 2)
    requires !IsWhitespace(text[p + |tag| + |body| + 2])
    requires forall i, st :: p + |tag| <= i < p + |tag| + |body| + 2 && st in stops ==> !OccursAt(text, st, i)
    ensures CaptureAt(text, tag, stops, p).Some?
    ensures TrimmedOrEmpty(CaptureAt(text, tag, stops, p)) == body
  {
    var b := p + |tag|;
    var j := b + |body| + 2;
    SkippedBlock(text, b, j, body);
    BlockCapture(text, tag, stops, p, b, j, stop, body);
  }

  /** The same block at the first occurrence of its label is what the lazy capture returns. */
  lemma LabelledBlock(text: string, tag: string, stops: seq<string>, p: nat, body: string, stop: string)
    requires FirstOccurrence(text, tag, p)
    requires p + |tag| + |body| + 2 < |text|
    requires IsWhitespace(text[p + |tag|]) && IsWhitespace(text[p + |tag| + |body| + 1])
    requires text[p + |tag| + 1..p + |tag| + |body| + 1] == body && IsTrimmed(body)
    requires stop in stops && OccursAt(text, stop, p + |tag| + |body| + 2)
    requires !IsWhitespace(text[p + |tag| + |body| + 2])
    requires forall i, st :: p + |tag| <= i < p + |tag| + |body| + 2 && st in stops ==> !OccursAt(text, st, i)
    ensures LazyCapture(text, tag, stops, 0).Some?
    ensures TrimmedOrEmpty(LazyCapture(text, tag, stops, 0)) == body
  {
    LabelledBlockAt(text, tag, stops, p, body, stop);
    LazyCaptureTakesFirstMatch(text, tag, stops, 0, p);
  }

  /** `parsePYQSolution` of a response in the solution format gives back its answer and solution. */
  lemma SolutionResponseRoundTrip(a: string, s: string, questionType: string)
    requires IsTrimmed(a) && IsTrimmed(s) && !Contains(a, "SOLUTION:")
    requires forall i :: 0 <= i < |a| ==> !IsLineTerminator(a[i])
    ensures ParsePYQSolution(AnswerTail(a, s), questionType) == PyqSolution(a, s)
  {
    assert [] + AnswerTail(a, s) == AnswerTail(a, s);
    AnswerOfTail([], a, s);
    SolutionOfTail([], a, s);
  }

  /** `QUESTION: <q>` on the first line, then the rest of the response. */
  function WithQuestion(q: string, rest: string): string {
    "QUESTION:" + [' '] + (q + ['\n'] + rest)
  }

  /** The first line is `|q| + 11` characters long. */
  lemma QuestionLine(q: string, rest: string)
    ensures WithQuestion(q, rest) == ("QUESTION:" + [' '] + q + ['\n']) + rest
    ensures |"QUESTION:" + [' '] + q + ['\n']| == |q| + 11
  {
  }

  /** A later label occurs after the question line only where it occurs in the rest. */
  lemma QuestionPrefix(q: string, rest: string, pat: string)
    requires pat == "OPTIONS:" || pat == "ANSWER:" || pat == "SOLUTION:"
    requires !Contains(q, pat)
    ensures forall i :: OccursAt(WithQuestion(q, rest), pat, i) ==> i >= |q| + 11 && OccursAt(rest, pat, i - |q| - 11)
    ensures forall i :: OccursAt(rest, pat, i) ==> OccursAt(WithQuestion(q, rest), pat, i + |q| + 11)
  {
    LabelsHaveNoBreaks();
    QuestionLabelApart();
    OccurrencesBeyond("QUESTION:", ' ', q + ['\n'] + rest, pat);
    OccurrencesBeyond(q, '\n', rest, pat);
    QuestionLine(q, rest);
    forall i | OccursAt(rest, pat, i) ensures OccursAt(WithQuestion(q, rest), pat, i + |q| + 11) {
      OccursAfter("QUESTION:" + [' '] + q + ['\n'], rest, pat, i);
    }
  }

  /** The question section of a response is the question line, up to the label that follows it. */
  lemma QuestionBlock(q: string, rest: string, stop: string)
    requires stop == "OPTIONS:" || stop == "ANSWER:"
    requires OccursAt(rest, stop, 0)
    requires IsTrimmed(q) && !Contains(q, "OPTIONS:") && !Contains(q, "ANSWER:")
    ensures TrimmedOrEmpty(QuestionSection(WithQuestion(q, rest))) == q
  {
    var text := WithQuestion(q, rest);
    var stops := ["OPTIONS:", "ANSWER:"];
    QuestionPrefix(q, rest, "OPTIONS:");
    QuestionPrefix(q, rest, "ANSWER:");
    assert forall k :: 0 <= k < 9 ==> text[k] == "QUESTION:"[k];
    assert FirstOccurrence(text, "QUESTION:", 0);
    assert forall i :: 0 <= i < |q| ==> text[10 + i] == q[i];
    assert text[10..10 + |q|] == q;
    assert text[|q| + 11] == rest[0] == stop[0];
    LabelledBlock(text, "QUESTION:", stops, 0, q, stop);
  }

  /** No `OPTIONS:` in the answer, the solution or the labels between them. */
  lemma TailHasNoOptions(a: string, s: string)
    requires !Contains(a, "OPTIONS:") && !Contains(s, "OPTIONS:")
    ensures !Contains(AnswerTail(a, s), "OPTIONS:")
  {
    LabelsHaveNoBreaks();
    OtherLabelsApart();
    NotContainsAround("SOLUTION:", ' ', s, "OPTIONS:");
    NotContainsAround(a, '\n', "SOLUTION:" + [' '] + s, "OPTIONS:");
    NotContainsAround("ANSWER:", ' ', a + ['\n'] + ("SOLUTION:" + [' '] + s), "OPTIONS:");
  }

  /** A response in the free-form format: question line, then the answer line and the solution. */
  function PlainResponse(q: string, a: string, s: string): string {
    WithQuestion(q, AnswerTail(a, s))
  }

  /**
   * `parseGeneratedQuestion` of a free-form response gives back the question,
   * the answer and the solution written into it, and no options.
   */
  lemma PlainResponseRoundTrip(q: string, a: string, s: string, questionType: string)
    requires Unlabelled(q) && Unlabelled(a) && Unlabelled(s)
    requires IsTrimmed(q) && IsTrimmed(a) && IsTrimmed(s)
    requires forall i :: 0 <= i < |a| ==> !IsLineTerminator(a[i])
    ensures ParseGeneratedQuestion(PlainResponse(q, a, s), questionType) == GeneratedQuestion(q, None, a, s, questionType)
  {
    var tail := AnswerTail(a, s);
    var pre := "QUESTION:" + [' '] + q + ['\n'];
    TailLabels(a, s);
    QuestionBlock(q, tail, "ANSWER:");
    QuestionLine(q, tail);
    QuestionPrefix(q, tail, "ANSWER:");
    QuestionPrefix(q, tail, "SOLUTION:");
    AnswerOfTail(pre, a, s);
    SolutionOfTail(pre, a, s);
    TailHasNoOptions(a, s);
    QuestionPrefix(q, tail, "OPTIONS:");
  }

  /** The option lines of the response format: `A) <first option>`, `B) <second option>`, … */
  function OptionLines(options: seq<string>): (lines: seq<string>)
    requires |options| <= 4
    ensures |lines| == |options|
  {
    seq(|options|, i requires 0 <= i < |options| => Prompts.Render(Prompts.LetterOptions(options)[i]))
  }

  /** A condition on an option that lets it come back whole from its line. */
  predicate PlainOption(o: string) {
    o != [] && IsTrimmed(o) && '\n' !in o && !Contains(o, "ANSWER:") && !Contains(o, "SOLUTION:")
  }

  /** A line `<letter>) <option>` is one trimmed line that holds no later label. */
  lemma MarkedLine(c: char, o: string)
    requires 'A' <= c <= 'D' && PlainOption(o)
    ensures var line := [c, ')'] + [' '] + o;
      && IsTrimmed(line) && '\n' !in line
      && !Contains(line, "ANSWER:") && !Contains(line, "SOLUTION:")
  {
    var line := [c, ')'] + [' '] + o;
    LabelsHaveNoBreaks();
    NotContainsAround([c, ')'], ' ', o, "ANSWER:");
    NotContainsAround([c, ')'], ' ', o, "SOLUTION:");
    assert line[|line| - 1] == o[|o| - 1];
  }

  /** Each option line is one trimmed line without the later labels, and parses back to its option. */
  lemma OptionLineShape(options: seq<string>, i: nat)
    requires |options| <= 4 && i < |options| && PlainOption(options[i])
    ensures var line := OptionLines(options)[i];
      && line != [] && IsTrimmed(line) && '\n' !in line
      && !Contains(line, "ANSWER:") && !Contains(line, "SOLUTION:")
      && Trim(line) != [] && StripMarker(Trim(line)) == options[i]
  {
    var c := (65 + i) as char;
    assert OptionLines(options)[i] == [c, ')'] + [' '] + options[i];
    MarkedLine(c, options[i]);
    LetteredOptionRoundTrip(options, i);
  }

  /** Lines that each parse back to one option give back the options, in order. */
  lemma {:induction false} OptionEntriesEach(lines: seq<string>, options: seq<string>)
    requires |lines| == |options|
    requires forall i :: 0 <= i < |lines| ==> Trim(lines[i]) != [] && StripMarker(Trim(lines[i])) == options[i]
    ensures OptionEntries(lines) == options
  {
    if lines != [] {
      assert OptionEntry(lines[0]) == [options[0]];
      OptionEntriesEach(lines[1..], options[1..]);
    }
  }

  /** Trimmed, non-empty lines joined by line breaks make a trimmed block. */
  lemma JoinTrimmed(lines: seq<string>, sep: char)
    requires |lines| >= 1
    requires forall i :: 0 <= i < |lines| ==> lines[i] != [] && IsTrimmed(lines[i])
    ensures IsTrimmed(Join(lines, sep))
  {
    var body := Join(lines, sep);
    JoinEnds(lines, sep);
    var last := lines[|lines| - 1];
    assert body[0] == body[..|lines[0]|][0] == lines[0][0];
    assert body[|body| - 1] == body[|body| - |last|..][|last| - 1] == last[|last| - 1];
  }

  /** The block of option lines is trimmed and holds no later label. */
  lemma OptionBlockShape(options: seq<string>)
    requires 1 <= |options| <= 4
    requires forall i :: 0 <= i < |options| ==> PlainOption(options[i])
    ensures var body := Join(OptionLines(options), '\n');
      IsTrimmed(body) && !Contains(body, "ANSWER:") && !Contains(body, "SOLUTION:")
  {
    var lines := OptionLines(options);
    forall i | 0 <= i < |lines|
      ensures lines[i] != [] && IsTrimmed(lines[i])
      ensures !Contains(lines[i], "ANSWER:") && !Contains(lines[i], "SOLUTION:")
    {
      OptionLineShape(options, i);
    }
    JoinNotContains(lines, '\n', "ANSWER:");
    JoinNotContains(lines, '\n', "SOLUTION:");
    JoinTrimmed(lines, '\n');
  }

  /** Split into lines again, the block of option lines parses back to the options. */
  lemma OptionBlockEntries(options: seq<string>)
    requires 1 <= |options| <= 4
    requires forall i :: 0 <= i < |options| ==> PlainOption(options[i])
    ensures OptionEntries(Split(Join(OptionLines(options), '\n'), '\n')) == options
  {
    var lines := OptionLines(options);
    forall i | 0 <= i < |lines|
      ensures '\n' !in lines[i]
      ensures Trim(lines[i]) != [] && StripMarker(Trim(lines[i])) == options[i]
    {
      OptionLineShape(options, i);
    }
    SplitJoin(lines, '\n');
    OptionEntriesEach(lines, options);
  }

  /** `OPTIONS:` on a line of its own, the block of option lines, then the tail. */
  function OptionsRest(body: string, tail: string): string {
    "OPTIONS:" + ['\n'] + (body + ['\n'] + tail)
  }

  /** A label that the options block does not hold occurs after it only where it occurs in the tail. */
  lemma OptionsPrefix(body: string, tail: string, pat: string)
    requires pat == "ANSWER:" || pat == "SOLUTION:"
    requires !Contains(body, pat)
    ensures forall i :: OccursAt(OptionsRest(body, tail), pat, i) ==> i >= |body| + 10 && OccursAt(tail, pat, i - |body| - 10)
    ensures forall i :: OccursAt(tail, pat, i) ==> OccursAt(OptionsRest(body, tail), pat, i + |body| + 10)
  {
    LabelsHaveNoBreaks();
    OtherLabelsApart();
    OccurrencesBeyond("OPTIONS:", '\n', body + ['\n'] + tail, pat);
    OccurrencesBeyond(body, '\n', tail, pat);
    var pre := "OPTIONS:" + ['\n'] + body + ['\n'];
    assert OptionsRest(body, tail) == pre + tail;
    forall i | OccursAt(tail, pat, i) ensures OccursAt(OptionsRest(body, tail), pat, i + |body| + 10) {
      OccursAfter(pre, tail, pat, i);
    }
  }

  /** The rest of a response sits right after the question line. */
  lemma QuestionShift(q: string, rest: string)
    ensures |WithQuestion(q, rest)| == |q| + 11 + |rest|
    ensures forall k :: 0 <= k < |rest| ==> WithQuestion(q, rest)[|q| + 11 + k] == rest[k]
  {
    QuestionLine(q, rest);
  }

  /** The options label after the question line is the first one in the response. */
  lemma OptionsFirst(q: string, body: string, tail: string)
    requires !Contains(q, "OPTIONS:")
    ensures FirstOccurrence(WithQuestion(q, OptionsRest(body, tail)), "OPTIONS:", |q| + 11)
  {
    var rest := OptionsRest(body, tail);
    QuestionPrefix(q, rest, "OPTIONS:");
    assert forall k :: 0 <= k < 8 ==> rest[k] == "OPTIONS:"[k];
    assert OccursAt(rest, "OPTIONS:", 0);
  }

  /** The option lines sit between two line breaks, right before the first character of the tail. */
  lemma OptionsBody(q: string, body: string, tail: string)
    requires tail != []
    ensures var text := WithQuestion(q, OptionsRest(body, tail));
      var p := |q| + 11;
      && p + 8 + |body| + 2 < |text|
      && text[p + 8] == '\n' && text[p + 8 + |body| + 1] == '\n'
      && text[p + 8 + 1..p + 8 + |body| + 1] == body
      && text[p + 8 + |body| + 2] == tail[0]
  {
    var rest := OptionsRest(body, tail);
    var text := WithQuestion(q, rest);
    var p := |q| + 11;
    QuestionShift(q, rest);
    assert forall k :: 0 <= k < |body| ==> rest[9 + k] == body[k];
    assert forall k :: 0 <= k < |body| ==> text[p + 9 + k] == body[k];
    assert text[p + 9..p + 9 + |body|] == body;
    assert text[p + 9 + |body|] == rest[9 + |body|] == '\n';
    assert text[p + 10 + |body|] == rest[10 + |body|] == tail[0];
  }

  /** The first `ANSWER:` after the options label opens the tail. */
  lemma OptionsStop(q: string, body: string, tail: string)
    requires !Contains(q, "ANSWER:") && !Contains(body, "ANSWER:") && OccursAt(tail, "ANSWER:", 0)
    ensures var text := WithQuestion(q, OptionsRest(body, tail));
      var p := |q| + 11;
      && OccursAt(text, "ANSWER:", p + 8 + |body| + 2)
      && forall i :: p + 8 <= i < p + 8 + |body| + 2 ==> !OccursAt(text, "ANSWER:", i)
  {
    var rest := OptionsRest(body, tail);
    QuestionPrefix(q, rest, "ANSWER:");
    OptionsPrefix(body, tail, "ANSWER:");
  }

  /** Where the parts of the options block sit in the whole response. */
  lemma OptionsLayout(q: string, body: string, tail: string)
    requires !Contains(q, "OPTIONS:") && !Contains(q, "ANSWER:")
    requires !Contains(body, "ANSWER:") && OccursAt(tail, "ANSWER:", 0)
    ensures var text := WithQuestion(q, OptionsRest(body, tail));
      var p := |q| + 11;
      && FirstOccurrence(text, "OPTIONS:", p)
      && p + 8 + |body| + 2 < |text|
      && text[p + 8] == '\n' && text[p + 8 + |body| + 1] == '\n'
      && text[p + 8 + 1..p + 8 + |body| + 1] == body
      && OccursAt(text, "ANSWER:", p + 8 + |body| + 2)
      && text[p + 8 + |body| + 2] == 'A'
      && forall i :: p + 8 <= i < p + 8 + |body| + 2 ==> !OccursAt(text, "ANSWER:", i)
  {
    assert tail[0 + 0] == "ANSWER:"[0];
    OptionsFirst(q, body, tail);
    OptionsBody(q, body, tail);
    OptionsStop(q, body, tail);
  }

  /** The options section of a response is its block of option lines, up to `ANSWER:`. */
  lemma OptionsSectionOf(q: string, body: string, tail: string)
    requires !Contains(q, "OPTIONS:") && !Contains(q, "ANSWER:")
    requires IsTrimmed(body) && !Contains(body, "ANSWER:") && OccursAt(tail, "ANSWER:", 0)
    ensures OptionsSection(WithQuestion(q, OptionsRest(body, tail))).Some?
    ensures TrimmedOrEmpty(OptionsSection(WithQuestion(q, OptionsRest(body, tail)))) == body
  {
    OptionsLayout(q, body, tail);
    LabelledBlock(WithQuestion(q, OptionsRest(body, tail)), "OPTIONS:", ["ANSWER:"], |q| + 11, body, "ANSWER:");
  }

  /** Everything before the answer line holds neither `ANSWER:` nor `SOLUTION:`. */
  lemma OptionsTail(q: string, body: string, a: string, s: string)
    requires !Contains(q, "ANSWER:") && !Contains(q, "SOLUTION:")
    requires !Contains(body, "ANSWER:") && !Contains(body, "SOLUTION:")
    ensures var pre := "QUESTION:" + [' '] + q + ['\n'] + ("OPTIONS:" + ['\n'] + body + ['\n']);
      && WithQuestion(q, OptionsRest(body, AnswerTail(a, s))) == pre + AnswerTail(a, s)
      && (forall i :: 0 <= i < |pre| ==> !OccursAt(pre + AnswerTail(a, s), "ANSWER:", i))
      && (forall i :: 0 <= i < |pre| ==> !OccursAt(pre + AnswerTail(a, s), "SOLUTION:", i))
  {
    var tail := AnswerTail(a, s);
    var rest := OptionsRest(body, tail);
    QuestionLine(q, rest);
    assert rest == ("OPTIONS:" + ['\n'] + body + ['\n']) + tail;
    QuestionPrefix(q, rest, "ANSWER:");
    QuestionPrefix(q, rest, "SOLUTION:");
    OptionsPrefix(body, tail, "ANSWER:");
    OptionsPrefix(body, tail, "SOLUTION:");
  }

  /**
   * A response in the multiple-choice format: question line, `OPTIONS:`, one
   * lettered line per option, then the answer line and the solution.
   */
  function OptionsResponse(q: string, options: seq<string>, a: string, s: string): string
    requires |options| <= 4
  {
    WithQuestion(q, OptionsRest(Join(OptionLines(options), '\n'), AnswerTail(a, s)))
  }

  /**
   * `parseGeneratedQuestion` of a multiple-choice response gives back the
   * question, the options (for MCQ and MSQ only), the answer and the solution.
   */
  lemma OptionsResponseRoundTrip(q: string, options: seq<string>, a: string, s: string, questionType: string)
    requires 1 <= |options| <= 4
    requires forall i :: 0 <= i < |options| ==> PlainOption(options[i])
    requires Unlabelled(q) && Unlabelled(a) && Unlabelled(s)
    requires IsTrimmed(q) && IsTrimmed(a) && IsTrimmed(s)
    requires forall i :: 0 <= i < |a| ==> !IsLineTerminator(a[i])
    ensures ParseGeneratedQuestion(OptionsResponse(q, options, a, s), questionType)
      == GeneratedQuestion(q, if questionType == "MCQ" || questionType == "MSQ" then Some(options) else None, a, s, questionType)
  {
    var body := Join(OptionLines(options), '\n');
    var tail := AnswerTail(a, s);
    var rest := OptionsRest(body, tail);
    var pre := "QUESTION:" + [' '] + q + ['\n'] + ("OPTIONS:" + ['\n'] + body + ['\n']);
    OptionBlockShape(options);
    OptionBlockEntries(options);
    TailLabels(a, s);
    assert forall k :: 0 <= k < 8 ==> rest[k] == "OPTIONS:"[k];
    QuestionBlock(q, rest, "OPTIONS:");
    OptionsSectionOf(q, body, tail);
    OptionsTail(q, body, a, s);
    AnswerOfTail(pre, a, s);
    SolutionOfTail(pre, a, s);
  }
}
