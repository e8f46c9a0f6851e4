/**
 * Type-specific acceptance rules for generated content
 * (`verifyAnswer` and `verifyPYQAnswer`, src/lib/gemini.ts:267-329).
 * `toUpperCase` is modelled on ASCII letters; no other character upper-cases
 * to `A`–`D`, a comma or whitespace, so the verdicts do not depend on it.
 */
module AnswerValidation {
  import opened Wrappers
  import opened JsStrings
  import opened ResponseParsing

  /** `['A', 'B', 'C', 'D'].includes(s)`. */
  predicate IsOptionLetter(s: string) {
    s == "A" || s == "B" || s == "C" || s == "D"
  }

  /** The MCQ rule: the upper-cased, trimmed answer is one of A, B, C, D, of length one. */
  predicate McqAnswerValid(answer: string) {
    var a := Trim(ToUpper(answer));
    IsOptionLetter(a) && Utf16Length(a) == 1
  }

  /** `.map(a => a.trim())`. */
  function TrimAll(parts: seq<string>): (r: seq<string>)
    ensures |r| == |parts| && forall i :: 0 <= i < |parts| ==> r[i] == Trim(parts[i])
  {
    seq(|parts|, i requires 0 <= i < |parts| => Trim(parts[i]))
  }

  /** The MSQ rule: every comma-separated, trimmed part of the upper-cased answer is A, B, C or D. */
  predicate MsqAnswerValid(answer: string) {
    var answers := TrimAll(Split(ToUpper(answer), ','));
    |answers| != 0 && forall i :: 0 <= i < |answers| ==> IsOptionLetter(answers[i])
  }

  predicate IsDigit(c: char) {
    '0' <= c <= '9'
  }

  /**
   * `!isNaN(parseFloat(s))`: after leading whitespace and an optional sign, the
   * text starts a decimal literal (a digit, or a point and a digit) or `Infinity`.
   */
  predicate ParsesAsNumber(s: string) {
    var t := s[LeadingWhitespace(s)..];
    var u := if |t| > 0 && (t[0] == '+' || t[0] == '-') then t[1..] else t;
    || (|u| > 0 && IsDigit(u[0]))
    || (|u| > 1 && u[0] == '.' && IsDigit(u[1]))
    || OccursAt(u, "Infinity", 0)
  }

  /**
   * `verifyAnswer`: the answer shape of the question type, then a statement of
   * at least 10 and a solution of at least 20 UTF-16 code units. The options
   * are not looked at; neither is the context the source passes in.
   */
  predicate VerifyAnswer(q: GeneratedQuestion) {
    && (if q.questionType == "MCQ" then McqAnswerValid(q.answer)
        else if q.questionType == "MSQ" then MsqAnswerValid(q.answer)
        else if q.questionType == "NAT" then ParsesAsNumber(q.answer)
        else true)
    && Utf16Length(q.questionStatement) >= 10
    && Utf16Length(q.solution) >= 20
  }

  /** `verifyPYQAnswer`: the same answer shapes; any other type only needs a non-empty answer. */
  predicate VerifyPYQAnswer(questionStatement: string, answer: string, questionType: string,
                            options: Option<seq<string>>)
  {
    if questionType == "MCQ" then McqAnswerValid(answer)
    else if questionType == "MSQ" then MsqAnswerValid(answer)
    else if questionType == "NAT" then ParsesAsNumber(answer)
    else Utf16Length(answer) > 0
  }

  /** Upper-casing neither creates nor removes whitespace. */
  lemma UpperCharWhitespace(c: char)
    ensures IsWhitespace(UpperChar(c)) == IsWhitespace(c)
  {
  }

  lemma {:induction false} LeadingWhitespaceOfUpper(s: string)
    ensures LeadingWhitespace(ToUpper(s)) == LeadingWhitespace(s)
  {
    if s != [] {
      UpperCharWhitespace(s[0]);
      assert ToUpper(s)[1..] == ToUpper(s[1..]);
      LeadingWhitespaceOfUpper(s[1..]);
    }
  }

  lemma {:induction false} TrailingWhitespaceOfUpper(s: string)
    ensures TrailingWhitespace(ToUpper(s)) == TrailingWhitespace(s)
  {
    if s != [] {
      UpperCharWhitespace(s[|s| - 1]);
      assert ToUpper(s)[..|s| - 1] == ToUpper(s[..|s| - 1]);
      TrailingWhitespaceOfUpper(s[..|s| - 1]);
    }
  }

  /** Upper-casing a slice is slicing the upper-cased string. */
  lemma UpperOfSlice(s: string, lo: nat, hi: nat)
    requires lo <= hi <= |s|
    ensures ToUpper(s)[lo..hi] == ToUpper(s[lo..hi])
  {
  }

  /** Upper-casing a suffix is taking the suffix of the upper-cased string. */
  lemma UpperOfSuffix(s: string, lo: nat)
    requires lo <= |s|
    ensures ToUpper(s)[lo..] == ToUpper(s[lo..])
  {
  }

  /** The trim bounds depend only on how much whitespace leads and trails. */
  lemma SameTrimBounds(s: string, u: string)
    requires |u| == |s| && LeadingWhitespace(u) == LeadingWhitespace(s)
    requires TrailingWhitespace(u[LeadingWhitespace(s)..]) == TrailingWhitespace(s[LeadingWhitespace(s)..])
    ensures TrimBounds(u) == TrimBounds(s)
  {
  }

  /** Upper-casing keeps the trim bounds. */
  lemma UpperTrimBounds(s: string)
    ensures TrimBounds(ToUpper(s)) == TrimBounds(s)
  {
    var lo := LeadingWhitespace(s);
    LeadingWhitespaceOfUpper(s);
    UpperOfSuffix(s, lo);
    TrailingWhitespaceOfUpper(s[lo..]);
    SameTrimBounds(s, ToUpper(s));
  }

  /** Trimming and upper-casing commute. */
  lemma TrimUpperCommute(s: string)
    ensures Trim(ToUpper(s)) == ToUpper(Trim(s))
  {
    UpperTrimBounds(s);
    var b := TrimBounds(s);
    UpperOfSlice(s, b.0, b.1);
  }

  /** A one-character string is one UTF-16 code unit when the character is in the Basic Multilingual Plane. */
  lemma Utf16LengthOfOne(c: char)
    ensures Utf16Length([c]) == if c as int > 0xFFFF then 2 else 1
  {
    assert [c][1..] == [];
  }

  /** An upper-cased string is one option letter exactly when it is one character a–d or A–D. */
  lemma UpperOptionLetter(t: string)
    ensures IsOptionLetter(ToUpper(t)) && Utf16Length(ToUpper(t)) == 1 <==>
      |t| == 1 && 'A' <= UpperChar(t[0]) <= 'D'
  {
    var a := ToUpper(t);
    if |t| == 1 {
      assert a == [UpperChar(t[0])];
      Utf16LengthOfOne(UpperChar(t[0]));
    } else {
      assert |a| != 1;
    }
  }

  /**
   * An MCQ answer is accepted exactly when it is a single letter a–d or A–D
   * with nothing but whitespace around it.
   */
  lemma McqAnswerValidIff(answer: string)
    ensures McqAnswerValid(answer) <==>
      |Trim(answer)| == 1 && 'A' <= UpperChar(Trim(answer)[0]) <= 'D'
  {
    TrimUpperCommute(answer);
    UpperOptionLetter(Trim(answer));
  }

  /** Every character of an answer without a comma-free part: a valid MCQ answer has no comma. */
  lemma McqAnswerHasNoComma(answer: string)
    requires McqAnswerValid(answer)
    ensures ',' !in ToUpper(answer)
  {
    var u := ToUpper(answer);
    var b := TrimBounds(u);
    forall i | 0 <= i < |u| ensures u[i] != ',' {
      if b.0 <= i < b.1 {
        assert u[i] == Trim(u)[i - b.0];
      }
    }
  }

  /** A valid MCQ answer is also a valid MSQ answer: one letter is a one-element selection. */
  lemma McqAnswerIsMsqAnswer(answer: string)
    requires McqAnswerValid(answer)
    ensures MsqAnswerValid(answer)
  {
    McqAnswerHasNoComma(answer);
    SplitWithoutSeparator(ToUpper(answer), ',');
  }

  /** A part whose trimmed text is an option letter holds only that letter and whitespace. */
  lemma OptionPartCharacters(p: string)
    requires IsOptionLetter(Trim(p))
    ensures forall i :: 0 <= i < |p| ==> IsWhitespace(p[i]) || 'A' <= p[i] <= 'D'
  {
    var b := TrimBounds(p);
    forall i | 0 <= i < |p| ensures IsWhitespace(p[i]) || 'A' <= p[i] <= 'D' {
      if b.0 <= i < b.1 {
        assert p[i] == Trim(p)[i - b.0];
      }
    }
  }

  /** Every character of a join is the separator or a character of one of the parts. */
  lemma {:induction false} JoinCharacters(parts: seq<string>, sep: char, P: char -> bool)
    requires P(sep)
    requires forall k, i :: 0 <= k < |parts| && 0 <= i < |parts[k]| ==> P(parts[k][i])
    ensures forall i :: 0 <= i < |Join(parts, sep)| ==> P(Join(parts, sep)[i])
  {
    if |parts| > 1 {
      JoinCharacters(parts[1..], sep, P);
      var rest := Join(parts[1..], sep);
      assert Join(parts, sep) == parts[0] + [sep] + rest;
      forall i | 0 <= i < |Join(parts, sep)| ensures P(Join(parts, sep)[i]) {
        if i < |parts[0]| {
          assert P(parts[0][i]);
        } else if i > |parts[0]| {
          assert Join(parts, sep)[i] == rest[i - |parts[0]| - 1];
        }
      }
    } else if |parts| == 1 {
      assert forall i :: 0 <= i < |parts[0]| ==> P(parts[0][i]);
    }
  }

  predicate MsqCharacter(c: char) {
    IsWhitespace(c) || c == ',' || 'A' <= c <= 'D'
  }

  /** An accepted MSQ answer consists only of letters a–d/A–D, commas and whitespace. */
  lemma MsqAnswerCharacters(answer: string)
    requires MsqAnswerValid(answer)
    ensures forall i :: 0 <= i < |answer| ==>
      IsWhitespace(answer[i]) || answer[i] == ',' || 'A' <= UpperChar(answer[i]) <= 'D'
  {
    var u := ToUpper(answer);
    var parts := Split(u, ',');
    forall k | 0 <= k < |parts| ensures forall i :: 0 <= i < |parts[k]| ==> MsqCharacter(parts[k][i]) {
      assert IsOptionLetter(TrimAll(parts)[k]);
      OptionPartCharacters(parts[k]);
    }
    JoinCharacters(parts, ',', MsqCharacter);
    JoinSplit(u, ',');
    forall i | 0 <= i < |answer|
      ensures IsWhitespace(answer[i]) || answer[i] == ',' || 'A' <= UpperChar(answer[i]) <= 'D'
    {
      assert MsqCharacter(u[i]);
      UpperCharWhitespace(answer[i]);
    }
  }

  /** "E" is not an MCQ answer. */
  lemma McqRejectsE()
    ensures !McqAnswerValid("E")
  {
    McqAnswerValidIff("E");
    assert Trim("E") == "E";
  }

  lemma TrimOneLetter(c: char)
    requires !IsWhitespace(c)
    ensures Trim([c]) == [c]
  {
    assert LeadingWhitespace([c]) == 0;
    assert [c][0..] == [c];
    assert TrailingWhitespace([c]) == 0;
  }

  /** Upper-casing leaves a string without lower-case ASCII letters as it is. */
  lemma UpperFixed(s: string)
    requires forall i :: 0 <= i < |s| ==> !('a' <= s[i] <= 'z')
    ensures ToUpper(s) == s
  {
  }

  predicate LetterOrComma(c: char) {
    c == ',' || 'A' <= c <= 'D'
  }

  /** An option letter is one upper-case character. */
  lemma OptionLetterCharacter(s: string)
    requires IsOptionLetter(s)
    ensures |s| == 1 && LetterOrComma(s[0])
  {
  }

  /** Option letters joined with commas hold only letters A–D and commas. */
  lemma JoinedLettersCharacters(letters: seq<string>)
    requires forall i :: 0 <= i < |letters| ==> IsOptionLetter(letters[i])
    ensures forall i :: 0 <= i < |Join(letters, ',')| ==> LetterOrComma(Join(letters, ',')[i])
  {
    forall k, i | 0 <= k < |letters| && 0 <= i < |letters[k]| ensures LetterOrComma(letters[k][i]) {
      OptionLetterCharacter(letters[k]);
    }
    JoinCharacters(letters, ',', LetterOrComma);
  }

  /** Option letters joined with commas are already upper case. */
  lemma JoinedLettersUpper(letters: seq<string>)
    requires forall i :: 0 <= i < |letters| ==> IsOptionLetter(letters[i])
    ensures ToUpper(Join(letters, ',')) == Join(letters, ',')
  {
    var joined := Join(letters, ',');
    JoinedLettersCharacters(letters);
    assert forall i :: 0 <= i < |joined| ==> LetterOrComma(joined[i]);
    UpperFixed(joined);
  }

  /** Option letters joined with commas split back into the letters. */
  lemma JoinedLettersSplit(letters: seq<string>)
    requires |letters| >= 1
    requires forall i :: 0 <= i < |letters| ==> IsOptionLetter(letters[i])
    ensures Split(Join(letters, ','), ',') == letters
  {
    forall k | 0 <= k < |letters| ensures ',' !in letters[k] {
      assert IsOptionLetter(letters[k]);
    }
    SplitJoin(letters, ',');
  }

  /** Trimming leaves option letters as they are. */
  lemma TrimLetters(letters: seq<string>)
    requires forall i :: 0 <= i < |letters| ==> IsOptionLetter(letters[i])
    ensures TrimAll(letters) == letters
  {
    forall k | 0 <= k < |letters| ensures Trim(letters[k]) == letters[k] {
      assert IsOptionLetter(letters[k]);
      assert letters[k] == [letters[k][0]];
      TrimOneLetter(letters[k][0]);
    }
  }

  /** Any non-empty list of option letters, joined with commas, is an MSQ answer. */
  lemma MsqAcceptsJoinedLetters(letters: seq<string>)
    requires |letters| >= 1
    requires forall i :: 0 <= i < |letters| ==> IsOptionLetter(letters[i])
    ensures MsqAnswerValid(Join(letters, ','))
  {
    JoinedLettersUpper(letters);
    JoinedLettersSplit(letters);
    TrimLetters(letters);
  }

  /** "A,C" is an MSQ answer. */
  lemma MsqAcceptsTwoLetters()
    ensures MsqAnswerValid("A,C")
  {
    MsqAcceptsJoinedLetters(["A", "C"]);
    assert Join(["A", "C"], ',') == "A,C";
  }

  /** The empty answer is not an MSQ answer: splitting it yields one empty part. */
  lemma MsqRejectsEmpty()
    ensures !MsqAnswerValid("")
  {
    var answers := TrimAll(Split(ToUpper(""), ','));
    assert ToUpper("") == "";
    assert Split("", ',') == [""];
    assert answers[0] == Trim("") == "";
    assert !IsOptionLetter(answers[0]);
  }

  /** A trailing comma leaves an empty part, which is rejected. */
  lemma MsqRejectsTrailingComma()
    ensures !MsqAnswerValid("A,")
  {
    assert ToUpper("A,") == "A,";
    assert "A,"[1..] == "," && ","[1..] == "";
    assert Split(",", ',') == ["", ""];
    assert ['A'] + "" == "A";
    assert Split("A,", ',') == ["A", ""];
    assert Trim("") == "";
    assert TrimAll(["A", ""])[1] == "";
  }

  /** `parseFloat` reads a number from a leading decimal literal, after whitespace and a sign. */
  lemma NumberAcceptedInteger()
    ensures ParsesAsNumber("42")
  {
    assert LeadingWhitespace("42") == 0;
  }

  /** Leading whitespace and a sign are skipped: " -3.5" is a number. */
  lemma NumberAcceptedSigned()
    ensures ParsesAsNumber(" -3.5")
  {
    assert LeadingWhitespace(" -3.5"[1..]) == 0;
    assert " -3.5"[1..] == "-3.5" && "-3.5"[1..] == "3.5";
  }

  /** A point followed by a digit starts a number: ".5e2" is one. */
  lemma NumberAcceptedPoint()
    ensures ParsesAsNumber(".5e2")
  {
    assert LeadingWhitespace(".5e2") == 0;
  }

  /** A bare point, a bare sign, letters and the empty string are not numbers. */
  lemma NumberRejected()
    ensures !ParsesAsNumber("") && !ParsesAsNumber(".") && !ParsesAsNumber("-") && !ParsesAsNumber("abc")
  {
    assert LeadingWhitespace(".") == 0;
    assert LeadingWhitespace("-") == 0 && "-"[1..] == "";
    assert LeadingWhitespace("abc") == 0;
  }

  /**
   * For MCQ, MSQ and NAT the two validators apply the same answer rule;
   * `verifyAnswer` adds the length rules and never looks at the options.
   */
  lemma VerifyAnswerAgreesWithPYQ(q: GeneratedQuestion, options: Option<seq<string>>)
    requires q.questionType == "MCQ" || q.questionType == "MSQ" || q.questionType == "NAT"
    ensures VerifyAnswer(q) <==>
      && VerifyPYQAnswer(q.questionStatement, q.answer, q.questionType, options)
      && Utf16Length(q.questionStatement) >= 10
      && Utf16Length(q.solution) >= 20
    ensures VerifyAnswer(q) == VerifyAnswer(q.(options := options))
  {
  }

  /** A subjective answer needs no shape in `verifyAnswer`, but must be non-empty in `verifyPYQAnswer`. */
  lemma SubjectiveRules(q: GeneratedQuestion)
    requires q.questionType == "SUB"
    ensures VerifyAnswer(q) <==> Utf16Length(q.questionStatement) >= 10 && Utf16Length(q.solution) >= 20
    ensures VerifyPYQAnswer(q.questionStatement, q.answer, "SUB", q.options) <==> q.answer != ""
  {
  }

  /** Text that passes parsing and validation holds the QUESTION and SOLUTION labels. */
  lemma AcceptedTextHasSections(text: string, questionType: string)
    requires VerifyAnswer(ParseGeneratedQuestion(text, questionType))
    ensures Contains(text, "QUESTION:") && Contains(text, "SOLUTION:")
  {
  }
}
