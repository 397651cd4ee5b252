/** Which stretches of text are house numbers, character by character, without the token machine. */
module HouseNumberGrammar {
  import opened AddressText
  import opened Options
  import opened HouseNumbers

  predicate IsDigit(c: Code) {
    '0' as int <= c <= '9' as int
  }

  predicate IsLetter(c: Code) {
    'a' as int <= c <= 'z' as int || 'A' as int <= c <= 'Z' as int
  }

  /** The letter in either case. */
  predicate Is(c: Code, letter: char) {
    'a' <= letter <= 'z' && (c == letter as int || c == letter as int - 32)
  }

  /** The letters behind a digit that make an ordinal of the digits and hyphens read so far. */
  predicate IsSuffixOf(text: String16, start: nat, i: nat)
    requires start < i < |text|
  {
    var first, second, last: int := text[i], if i + 1 < |text| then text[i + 1] else 0, text[i - 1] as int - '0' as int;
    var teen := i >= start + 2 && text[i - 2] == '1' as int && Counted(text, start, i) == 2;
    || (last == 1 && Is(first, 's') && Is(second, 't'))
    || (last == 2 && Is(first, 'n') && Is(second, 'd'))
    || (last == 3 && Is(first, 'r') && Is(second, 'd'))
    || ((4 <= last <= 9 || (last == 0 && Counted(text, start, i) > 1) || (1 <= last <= 3 && teen)) && Is(first, 't') && Is(second, 'h'))
  }

  predicate StartsWithOne(text: String16, start: nat, end: nat)
    requires end <= |text|
  {
    start + 3 <= end && Is(text[start], 'o') && Is(text[start + 1], 'n') && Is(text[start + 2], 'e')
  }

  /** Behind the character the text ends or a delimiter stands. */
  predicate IsDelimitedBehind(text: String16, whitespace: set<Code>, i: nat)
    requires i < |text|
  {
    i + 1 == |text| || IsPostDelimiter(whitespace, text[i + 1])
  }

  /** A letter belongs to "one" at the start, or stands behind a digit, alone or as the first or second letter of an ordinal suffix. */
  predicate LetterFits(text: String16, whitespace: set<Code>, start: nat, end: nat, i: nat)
    requires start <= i < end <= |text|
  {
    || (i < start + 3 && StartsWithOne(text, start, end))
    || (i > start && IsDigit(text[i - 1])
        && (IsDelimitedBehind(text, whitespace, i) || IsSuffixOf(text, start, i)))
    || (i > start + 1 && IsLetter(text[i - 1]) && IsDigit(text[i - 2]) && IsSuffixOf(text, start, i - 1))
  }

  /** At most five digits and hyphens, no hyphen before the first digit, and letters where they may be. */
  predicate CharFits(text: String16, whitespace: set<Code>, start: nat, end: nat, i: nat)
    requires start <= i < end <= |text|
  {
    || (IsDigit(text[i]) && Counted(text, start, i) < 5)
    || (text[i] == '-' as int && Counted(text, start, i) > 0)
    || (IsLetter(text[i]) && LetterFits(text, whitespace, start, end, i))
  }

  /** A stretch that is a house number as far as its own characters and the one behind it go. */
  ghost predicate IsNumeral(text: String16, whitespace: set<Code>, start: nat, end: nat, stop: nat)
    requires end <= |text|
  {
    && start < stop <= end
    && (stop == end || IsPostDelimiter(whitespace, text[stop]))
    && text[stop - 1] != '-' as int
    && forall i | start <= i < stop :: CharFits(text, whitespace, start, end, i)
  }

  // ----- The token machine accepts just these -----

  /** Nothing that the machine has not taken belongs to the letters before `it`. */
  predicate AtGroupEnd(text: String16, whitespace: set<Code>, start: nat, end: nat, it: nat)
    requires start <= it <= end <= |text|
  {
    && (start < it < start + 3 ==> !StartsWithOne(text, start, end))
    && (start < it < end && IsAsciiAlpha(text[it - 1]) && IsAsciiAlpha(text[it]) ==> !LetterFits(text, whitespace, start, end, it))
  }

  lemma NumeralCharsAreNoBreaks(whitespace: set<Code>, c: Code)
    requires PlainWhitespace(whitespace) && (IsAsciiDigit(c) || IsAsciiAlpha(c) || c == HYPHEN)
    ensures !IsPostDelimiter(whitespace, c)
  {
  }

  /** The ordinal suffixes of the machine are those. */
  lemma OrdinalIsSuffix(text: String16, begin: nat, start: nat, i: nat)
    requires begin <= start < i < |text| && IsAsciiDigit(text[i - 1])
    ensures var digits := Counted(text, start, i);
      IsOrdinal(text[i - 1], text[i], At(text, i + 1), IsTeen(text, begin, i, digits), digits) <==> IsSuffixOf(text, start, i)
  {
    if i == start + 1 {
      assert Counted(text, start, start) == 0;
    }
  }

  /** A step of the machine: over characters that fit, to where a group ends, or nowhere when its character does not fit. */
  ghost predicate StepFits(text: String16, whitespace: set<Code>, end: nat, start: nat, it: nat, n: nat)
    requires start <= it < end <= |text| && it + n <= end
  {
    && (n == 0 <==> !CharFits(text, whitespace, start, end, it))
    && (n > 0 ==> AtGroupEnd(text, whitespace, start, end, it + n) && Counted(text, start, it + n) == DigitsAfter(text[it], Counted(text, start, it)))
    && (forall i | it <= i < it + n :: CharFits(text, whitespace, start, end, i))
    && (forall i | it < i < it + n :: IsLetter(text[i]))
  }

  lemma NoLetterSteps(text: String16, whitespace: set<Code>, begin: nat, end: nat, start: nat, it: nat)
    requires begin <= start <= it < end <= |text| && !IsLetter(text[it]) && AtGroupEnd(text, whitespace, start, end, it)
    ensures StepFits(text, whitespace, end, start, it, Growth(text, whitespace, begin, end, it, Counted(text, start, it), it - start))
  {
  }

  lemma FirstLetterSteps(text: String16, whitespace: set<Code>, begin: nat, end: nat, start: nat)
    requires begin <= start < end <= |text| && IsLetter(text[start])
    ensures StepFits(text, whitespace, end, start, start, Growth(text, whitespace, begin, end, start, Counted(text, start, start), 0))
  {
    assert Counted(text, start, start) == 0;
    if Growth(text, whitespace, begin, end, start, 0, 0) == 3 {
      assert Counted(text, start, start + 1) == Counted(text, start, start + 2) == Counted(text, start, start + 3) == 0;
    }
  }

  lemma LetterSteps(text: String16, whitespace: set<Code>, begin: nat, end: nat, start: nat, it: nat)
    requires begin <= start < it < end <= |text| && IsLetter(text[it]) && AtGroupEnd(text, whitespace, start, end, it) && PlainWhitespace(whitespace)
    ensures StepFits(text, whitespace, end, start, it, Growth(text, whitespace, begin, end, it, Counted(text, start, it), it - start))
  {
    if IsDigit(text[it - 1]) {
      OrdinalIsSuffix(text, begin, start, it);
      LetterBehindDigitSteps(text, whitespace, begin, end, start, it);
    }
  }

  lemma LetterBehindDigitSteps(text: String16, whitespace: set<Code>, begin: nat, end: nat, start: nat, it: nat)
    requires begin <= start < it < end <= |text| && IsLetter(text[it]) && IsDigit(text[it - 1]) && AtGroupEnd(text, whitespace, start, end, it)
    requires PlainWhitespace(whitespace)
    requires var digits := Counted(text, start, it);
      IsOrdinal(text[it - 1], text[it], At(text, it + 1), IsTeen(text, begin, it, digits), digits) <==> IsSuffixOf(text, start, it)
    ensures StepFits(text, whitespace, end, start, it, Growth(text, whitespace, begin, end, it, Counted(text, start, it), it - start))
  {
    var n := Growth(text, whitespace, begin, end, it, Counted(text, start, it), it - start);
    assert Counted(text, start, it + 1) == Counted(text, start, it);
    assert CharFits(text, whitespace, start, end, it) <==> n > 0;
    if n == 2 {
      assert CharFits(text, whitespace, start, end, it + 1);
    } else if n == 1 && it + 1 < end && IsLetter(text[it + 1]) {
      NumeralCharsAreNoBreaks(whitespace, text[it + 1]);
    }
  }

  lemma EveryStepFits(text: String16, whitespace: set<Code>, begin: nat, end: nat, start: nat, it: nat)
    requires begin <= start <= it < end <= |text| && AtGroupEnd(text, whitespace, start, end, it) && PlainWhitespace(whitespace)
    ensures StepFits(text, whitespace, end, start, it, Growth(text, whitespace, begin, end, it, Counted(text, start, it), it - start))
  {
    if !IsLetter(text[it]) {
      NoLetterSteps(text, whitespace, begin, end, start, it);
    } else if it == start {
      FirstLetterSteps(text, whitespace, begin, end, start);
    } else {
      LetterSteps(text, whitespace, begin, end, start, it);
    }
  }

  /** What is still to come of a numeral. */
  ghost predicate IsRestOfNumeral(text: String16, whitespace: set<Code>, start: nat, end: nat, it: nat, stop: nat)
    requires start <= it <= end <= |text|
  {
    && it <= stop && start < stop <= end
    && AtBreak(text, whitespace, end, stop)
    && text[stop - 1] != HYPHEN
    && forall i | it <= i < stop :: CharFits(text, whitespace, start, end, i)
  }

  lemma RestAtBreak(text: String16, whitespace: set<Code>, start: nat, end: nat, it: nat, stop: nat)
    requires start <= it <= end <= |text| && AtBreak(text, whitespace, end, it) && PlainWhitespace(whitespace)
    requires IsRestOfNumeral(text, whitespace, start, end, it, stop)
    ensures stop == it
  {
    if it < stop {
      assert CharFits(text, whitespace, start, end, it);
      NumeralCharsAreNoBreaks(whitespace, text[it]);
    }
  }

  /** A numeral goes on behind the step, or does not get past it. */
  lemma RestBehindStep(text: String16, whitespace: set<Code>, start: nat, end: nat, it: nat, n: nat, stop: nat)
    requires start <= it < end <= |text| && it + n <= end && PlainWhitespace(whitespace) && StepFits(text, whitespace, end, start, it, n)
    requires !IsPostDelimiter(whitespace, text[it])
    ensures IsRestOfNumeral(text, whitespace, start, end, it, stop) <==> n > 0 && IsRestOfNumeral(text, whitespace, start, end, it + n, stop)
  {
    if IsRestOfNumeral(text, whitespace, start, end, it, stop) {
      assert stop != it && CharFits(text, whitespace, start, end, it);
      if stop < it + n {
        NumeralCharsAreNoBreaks(whitespace, text[stop]);
      }
    }
  }

  lemma {:induction false} RunIsNumeral(text: String16, whitespace: set<Code>, begin: nat, end: nat, start: nat, it: nat, stop: nat)
    requires begin <= start <= it <= end <= |text| && PlainWhitespace(whitespace) && AtGroupEnd(text, whitespace, start, end, it)
    ensures RunFrom(text, whitespace, begin, end, it, Counted(text, start, it), it - start) == Some(stop)
       <==> IsRestOfNumeral(text, whitespace, start, end, it, stop)
    decreases end - it
  {
    if AtBreak(text, whitespace, end, it) {
      if IsRestOfNumeral(text, whitespace, start, end, it, stop) {
        RestAtBreak(text, whitespace, start, end, it, stop);
      }
    } else {
      var n := Growth(text, whitespace, begin, end, it, Counted(text, start, it), it - start);
      EveryStepFits(text, whitespace, begin, end, start, it);
      RestBehindStep(text, whitespace, start, end, it, n, stop);
      if n > 0 {
        RunIsNumeral(text, whitespace, begin, end, start, it + n, stop);
      }
    }
  }

  /** The machine accepts a stretch exactly when it is a numeral. */
  lemma AcceptedIff(text: String16, whitespace: set<Code>, begin: nat, end: nat, start: nat, stop: nat)
    requires begin <= start <= end <= |text| && PlainWhitespace(whitespace)
    ensures RunAt(text, whitespace, begin, end, start) == Some(stop) <==> IsNumeral(text, whitespace, start, end, stop)
  {
    assert Counted(text, start, start) == 0;
    RunIsNumeral(text, whitespace, begin, end, start, start, stop);
  }

  /** A number may start at the beginning, and behind whitespace, a quote, a comma, a colon or what is taken for one. */
  predicate MayStart(text: String16, whitespace: set<Code>, begin: nat, start: nat)
    requires begin <= start <= |text|
  {
    start == begin || text[start - 1] == ':' as int || IsPostDelimiter(whitespace, text[start - 1])
  }

  ghost predicate IsLeftmostNumeral(text: String16, whitespace: set<Code>, begin: nat, end: nat, word: Word)
    requires begin <= end <= |text|
  {
    && begin <= word.begin <= end && MayStart(text, whitespace, begin, word.begin)
    && IsNumeral(text, whitespace, word.begin, end, word.end)
    && forall start: nat, stop: nat | begin <= start < word.begin && MayStart(text, whitespace, begin, start) ::
         !IsNumeral(text, whitespace, start, end, stop)
  }

  ghost predicate HasNumeral(text: String16, whitespace: set<Code>, begin: nat, end: nat)
    requires begin <= end <= |text|
  {
    exists start: nat, stop: nat :: begin <= start <= end && MayStart(text, whitespace, begin, start) && IsNumeral(text, whitespace, start, end, stop)
  }

  lemma HasRunIff(text: String16, whitespace: set<Code>, begin: nat, end: nat)
    requires begin <= end <= |text| && PlainWhitespace(whitespace)
    ensures HasRun(text, whitespace, begin, end) <==> HasNumeral(text, whitespace, begin, end)
  {
    forall start: nat, stop: nat | begin <= start <= end
      ensures RunAt(text, whitespace, begin, end, start) == Some(stop) <==> IsNumeral(text, whitespace, start, end, stop)
    {
      AcceptedIff(text, whitespace, begin, end, start, stop);
    }
    if start: nat :| begin <= start <= end && IsStart(text, whitespace, begin, start) && RunAt(text, whitespace, begin, end, start).Some? {
      assert IsNumeral(text, whitespace, start, end, RunAt(text, whitespace, begin, end, start).value);
    }
  }

  /** The number found is the leftmost numeral that stands where one may start. */
  lemma FoundIsLeftmostNumeral(text: String16, whitespace: set<Code>, begin: nat, end: nat, word: Word)
    requires begin <= end <= |text| && PlainWhitespace(whitespace)
    ensures IsFirstRun(text, whitespace, begin, end, word) <==> IsLeftmostNumeral(text, whitespace, begin, end, word)
  {
    if begin <= word.begin <= end {
      AcceptedIff(text, whitespace, begin, end, word.begin, word.end);
      forall start: nat, stop: nat | begin <= start < word.begin
        ensures RunAt(text, whitespace, begin, end, start) == Some(stop) <==> IsNumeral(text, whitespace, start, end, stop)
      {
        AcceptedIff(text, whitespace, begin, end, start, stop);
      }
    }
  }

  // ----- Digits with a suffix -----

  lemma {:induction false} DigitsAreCounted(text: String16, start: nat, limit: nat)
    requires start <= limit <= |text| && AllDigits(text, start, limit)
    ensures Counted(text, start, limit) == limit - start
    decreases limit
  {
    if start < limit {
      DigitsAreCounted(text, start, limit - 1);
    }
  }

  /** The two letters that make an ordinal of some digits; "th" behind 1, 2 and 3 only in 11th, 12th and 13th, behind 0 not alone. */
  predicate IsOrdinalText(digits: seq<Code>, first: Code, second: Code)
    requires |digits| > 0
  {
    var last := digits[|digits| - 1];
    || (last == '1' as int && Is(first, 's') && Is(second, 't'))
    || (last == '2' as int && Is(first, 'n') && Is(second, 'd'))
    || (last == '3' as int && Is(first, 'r') && Is(second, 'd'))
    || (Is(first, 't') && Is(second, 'h')
        && (last >= '4' as int || (last == '0' as int && |digits| > 1) || (last != '0' as int && |digits| == 2 && digits[0] == '1' as int)))
  }

  /** Behind digits, the grammar's suffixes are those. */
  lemma SuffixOfDigits(text: String16, start: nat, at: nat)
    requires start < at && at + 1 < |text| && AllDigits(text, start, at)
    ensures IsSuffixOf(text, start, at) <==> IsOrdinalText(text[start..at], text[at], text[at + 1])
  {
    DigitsAreCounted(text, start, at);
    var digits := text[start..at];
    assert digits[|digits| - 1] == text[at - 1] && digits[0] == text[start];
  }

  /** Digits fit as long as they are at most five, and no number ends among them when a letter follows. */
  lemma DigitsFit(text: String16, whitespace: set<Code>, end: nat, start: nat, at: nat)
    requires start < at <= start + 5 && at < end <= |text| && PlainWhitespace(whitespace) && AllDigits(text, start, at) && IsAsciiAlpha(text[at])
    ensures forall i | start <= i < at :: CharFits(text, whitespace, start, end, i)
    ensures forall stop | IsNumeral(text, whitespace, start, end, stop) :: at < stop
    ensures !StartsWithOne(text, start, end)
  {
    forall i | start <= i < at ensures CharFits(text, whitespace, start, end, i) {
      DigitsAreCounted(text, start, i);
    }
    forall stop: nat | IsNumeral(text, whitespace, start, end, stop) ensures at < stop {
      if stop <= at {
        NumeralCharsAreNoBreaks(whitespace, text[stop]);
      }
    }
  }

  /** Up to five digits and two letters are a number exactly when the letters are the suffix the digits call for. */
  lemma OrdinalIff(text: String16, whitespace: set<Code>, begin: nat, end: nat, start: nat, at: nat)
    requires begin <= start < at <= start + 5 && at + 2 <= end <= |text| && PlainWhitespace(whitespace) && AllDigits(text, start, at)
    requires IsAsciiAlpha(text[at]) && IsAsciiAlpha(text[at + 1]) && AtBreak(text, whitespace, end, at + 2)
    ensures RunAt(text, whitespace, begin, end, start)
         == if IsOrdinalText(text[start..at], text[at], text[at + 1]) then Some(at + 2) else None
  {
    SuffixOfDigits(text, start, at);
    DigitsFit(text, whitespace, end, start, at);
    NumeralCharsAreNoBreaks(whitespace, text[at + 1]);
    AcceptedIff(text, whitespace, begin, end, start, at + 2);
    assert CharFits(text, whitespace, start, end, at) <==> IsSuffixOf(text, start, at);
    var run := RunAt(text, whitespace, begin, end, start);
    if run.Some? {
      AcceptedIff(text, whitespace, begin, end, start, run.value);
    }
  }

  /**
   Up to five digits and one letter at the end of the range are a number exactly when a break follows; the letter
   behind the range counts too, when the two would make an ordinal.
   */
  lemma LetterIff(text: String16, whitespace: set<Code>, begin: nat, end: nat, start: nat, at: nat)
    requires begin <= start < at <= start + 5 && at < end <= |text| && PlainWhitespace(whitespace) && AllDigits(text, start, at)
    requires IsAsciiAlpha(text[at]) && (at + 1 < end ==> !IsAsciiAlpha(text[at + 1]))
    ensures RunAt(text, whitespace, begin, end, start)
         == if IsDelimitedBehind(text, whitespace, at)
               || (at + 1 < |text| && IsAsciiAlpha(text[at + 1]) && IsOrdinalText(text[start..at], text[at], text[at + 1]))
            then Some(at + 1) else None
  {
    if at + 1 < |text| {
      SuffixOfDigits(text, start, at);
    }
    DigitsFit(text, whitespace, end, start, at);
    AcceptedIff(text, whitespace, begin, end, start, at + 1);
    assert CharFits(text, whitespace, start, end, at) <==>
      IsDelimitedBehind(text, whitespace, at) || IsSuffixOf(text, start, at);
    var run := RunAt(text, whitespace, begin, end, start);
    if run.Some? {
      AcceptedIff(text, whitespace, begin, end, start, run.value);
    }
  }
}
