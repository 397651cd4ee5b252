/**
 Finding house numbers: a scanner that accepts digits, hyphens, ordinal suffixes and the word
 "one", and starts again after the next delimiter when it cannot go on.
 */
module HouseNumbers {
  import opened AddressText
  import opened Options

  const MAX_HOUSE_DIGITS: nat := 5

  // ----- The token machine -----

  predicate IsOne(text: String16, at: nat)
    requires at + 3 <= |text|
  {
    ToLowerASCII(text[at]) == 0x6F && ToLowerASCII(text[at + 1]) == 0x6E && ToLowerASCII(text[at + 2]) == 0x65
  }

  predicate Pair(first: Code, second: Code, a: Code, b: Code) {
    ToLowerASCII(first) == a && ToLowerASCII(second) == b
  }

  /** The ordinal suffixes: 1st, 2nd, 3rd, 4th ..., 11th, 12th, 13th, but not 0th. */
  predicate IsOrdinal(lastDigit: Code, first: Code, second: Code, isTeen: bool, numDigits: nat)
    requires IsAsciiDigit(lastDigit)
  {
    var th := Pair(first, second, 0x74, 0x68);
    match lastDigit - ZERO
    case 0 => numDigits != 1 && th
    case 1 => Pair(first, second, 0x73, 0x74) || (th && isTeen)
    case 2 => Pair(first, second, 0x6E, 0x64) || (th && isTeen)
    case 3 => Pair(first, second, 0x72, 0x64) || (th && isTeen)
    case _ => th
  }

  predicate IsTeen(text: String16, begin: nat, it: nat, numDigits: nat)
    requires begin < it <= |text|
  {
    begin + 1 < it && text[it - 2] == 0x31 && numDigits == 2
  }

  /**
   How many characters the candidate `text[it - chars..it]` grows by at `it`; none when it cannot go on.
   */
  function Growth(text: String16, whitespace: set<Code>, begin: nat, end: nat, it: nat, digits: nat, chars: nat): (n: nat)
    requires begin + chars <= it < end <= |text|
    ensures n <= end - it
  {
    var c := text[it];
    if IsAsciiDigit(c) then if digits >= MAX_HOUSE_DIGITS then 0 else 1
    else if IsAsciiAlpha(c) then
      if chars == 0 then if it + 3 <= end && IsOne(text, it) then 3 else 0
      else if !IsAsciiDigit(text[it - 1]) then 0
      else
        var next := At(text, it + 1);
        if IsPostDelimiter(whitespace, next) then 1
        else if IsAsciiAlpha(next) && IsOrdinal(text[it - 1], c, next, IsTeen(text, begin, it, digits), digits)
        then if it + 2 <= end then 2 else 1
        else 0
    else if c == HYPHEN && digits > 0 then 1
    else 0
  }

  function DigitsAfter(c: Code, digits: nat): nat {
    if IsAsciiDigit(c) || c == HYPHEN then digits + 1 else digits
  }

  predicate AtBreak(text: String16, whitespace: set<Code>, end: nat, it: nat)
    requires it <= end <= |text|
  {
    it == end || IsPostDelimiter(whitespace, text[it])
  }

  /** Where the candidate ends, if the token machine accepts it. */
  function RunFrom(text: String16, whitespace: set<Code>, begin: nat, end: nat, it: nat, digits: nat, chars: nat): Option<nat>
    requires begin + chars <= it <= end <= |text|
    decreases end - it
  {
    if AtBreak(text, whitespace, end, it)
    then if chars == 0 || text[it - 1] == HYPHEN then None else Some(it)
    else
      var n := Growth(text, whitespace, begin, end, it, digits, chars);
      if n == 0 then None
      else RunFrom(text, whitespace, begin, end, it + n, DigitsAfter(text[it], digits), chars + n)
  }

  /** The run the machine accepts from a position on, with nothing read yet. */
  function RunAt(text: String16, whitespace: set<Code>, begin: nat, end: nat, start: nat): Option<nat>
    requires begin <= start <= end <= |text|
  {
    RunFrom(text, whitespace, begin, end, start, 0, 0)
  }

  /** A number may start where the text does and just after a delimiter. */
  predicate IsStart(text: String16, whitespace: set<Code>, begin: nat, start: nat)
    requires begin <= start <= |text|
  {
    start == begin || IsPreDelimiter(whitespace, text[start - 1])
  }

  ghost predicate NoRunBefore(text: String16, whitespace: set<Code>, begin: nat, end: nat, limit: nat)
    requires begin <= end <= |text|
  {
    forall start | begin <= start < limit && start <= end && IsStart(text, whitespace, begin, start) ::
      RunAt(text, whitespace, begin, end, start) == None
  }

  /** The specification: the leftmost accepted run. */
  ghost predicate IsFirstRun(text: String16, whitespace: set<Code>, begin: nat, end: nat, word: Word)
    requires begin <= end <= |text|
  {
    && begin <= word.begin <= end
    && IsStart(text, whitespace, begin, word.begin)
    && RunAt(text, whitespace, begin, end, word.begin) == Some(word.end)
    && NoRunBefore(text, whitespace, begin, end, word.begin)
  }

  ghost predicate HasRun(text: String16, whitespace: set<Code>, begin: nat, end: nat)
    requires begin <= end <= |text|
  {
    exists start :: begin <= start <= end && IsStart(text, whitespace, begin, start)
                    && RunAt(text, whitespace, begin, end, start).Some?
  }

  // ----- What is known of a candidate -----

  predicate NoDelimiters(text: String16, whitespace: set<Code>, from: nat, to: nat)
    requires to <= |text|
  {
    forall i | from <= i < to :: !IsPreDelimiter(whitespace, text[i])
  }

  lemma GrowthTakesNoDelimiter(text: String16, whitespace: set<Code>, begin: nat, end: nat, it: nat, digits: nat, chars: nat)
    requires begin + chars <= it < end <= |text| && PlainWhitespace(whitespace)
    ensures NoDelimiters(text, whitespace, it, it + Growth(text, whitespace, begin, end, it, digits, chars))
  {
  }

  /** The first delimiter at or after a position. */
  function NextDelimiter(text: String16, whitespace: set<Code>, end: nat, from: nat): (at: nat)
    requires from <= end <= |text|
    ensures from <= at <= end
    ensures NoDelimiters(text, whitespace, from, at)
    ensures at < end ==> IsPreDelimiter(whitespace, text[at])
    decreases end - from
  {
    if from == end || IsPreDelimiter(whitespace, text[from]) then from
    else NextDelimiter(text, whitespace, end, from + 1)
  }

  /**
   The state of the scan: nothing starts and succeeds before the candidate, the candidate is being
   followed from its start, and a candidate that has characters does start where one may.
   */
  ghost predicate Scanning(text: String16, whitespace: set<Code>, begin: nat, end: nat, it: nat, digits: nat, chars: nat) {
    && begin + chars <= it <= end <= |text|
    && NoRunBefore(text, whitespace, begin, end, it - chars)
    && RunAt(text, whitespace, begin, end, it - chars) == RunFrom(text, whitespace, begin, end, it, digits, chars)
    && NoDelimiters(text, whitespace, it - chars, it)
    && (chars > 0 ==> IsStart(text, whitespace, begin, it - chars))
    && (chars == 0 ==> digits == 0)
    && (chars == 0 ==> IsStart(text, whitespace, begin, it) || it == end || IsPreDelimiter(whitespace, text[it]))
  }

  lemma ScanGrows(text: String16, whitespace: set<Code>, begin: nat, end: nat, it: nat, digits: nat, chars: nat)
    requires Scanning(text, whitespace, begin, end, it, digits, chars) && PlainWhitespace(whitespace)
    requires it < end && !IsPostDelimiter(whitespace, text[it])
    requires Growth(text, whitespace, begin, end, it, digits, chars) > 0
    ensures var n := Growth(text, whitespace, begin, end, it, digits, chars);
      Scanning(text, whitespace, begin, end, it + n, DigitsAfter(text[it], digits), chars + n)
  {
    GrowthTakesNoDelimiter(text, whitespace, begin, end, it, digits, chars);
  }

  /** A candidate that cannot go on is given up, and with it every start up to the next delimiter. */
  lemma ScanRestarts(text: String16, whitespace: set<Code>, begin: nat, end: nat, it: nat, digits: nat, chars: nat)
    requires Scanning(text, whitespace, begin, end, it, digits, chars)
    requires RunFrom(text, whitespace, begin, end, it, digits, chars) == None
    ensures Scanning(text, whitespace, begin, end, NextDelimiter(text, whitespace, end, it), 0, 0)
  {
    var at := NextDelimiter(text, whitespace, end, it);
    assert NoDelimiters(text, whitespace, it - chars, at);
  }

  /** Stepping over a delimiter leads to a start. */
  lemma ScanSkips(text: String16, whitespace: set<Code>, begin: nat, end: nat, it: nat)
    requires Scanning(text, whitespace, begin, end, it, 0, 0)
    requires it < end && IsPreDelimiter(whitespace, text[it]) && PlainWhitespace(whitespace)
    ensures Scanning(text, whitespace, begin, end, it + 1, 0, 0)
  {
  }

  // ----- The scanner -----

  class HouseNumberParser {
    const text: String16
    const whitespace: set<Code>
    var begin: nat
    var it: nat
    var end: nat
    var numDigits: nat
    var resultChars: nat

    constructor (text: String16, whitespace: set<Code>)
      requires PlainWhitespace(whitespace)
      ensures this.text == text && this.whitespace == whitespace
    {
      this.text := text;
      this.whitespace := whitespace;
      begin, it, end, numDigits, resultChars := 0, 0, 0, 0, 0;
    }

    predicate InBounds()
      reads this
    {
      begin + resultChars <= it <= end <= |text|
    }

    ghost predicate Scanned()
      reads this
    {
      Scanning(text, whitespace, begin, end, it, numDigits, resultChars)
    }

    method ResetState()
      modifies this`numDigits, this`resultChars
      ensures numDigits == 0 && resultChars == 0
    {
      numDigits := 0;
      resultChars := 0;
    }

    method RestartOnNextDelimiter()
      requires InBounds()
      modifies this`it, this`numDigits, this`resultChars
      ensures InBounds() && numDigits == 0 && resultChars == 0
      ensures it == NextDelimiter(text, whitespace, end, old(it))
    {
      ResetState();
      while it != end && !IsPreDelimiter(whitespace, text[it])
        invariant begin <= it <= end <= |text| && old(it) <= it && numDigits == 0 && resultChars == 0
        invariant NextDelimiter(text, whitespace, end, it) == NextDelimiter(text, whitespace, end, old(it))
        decreases end - it
      {
        it := it + 1;
      }
    }

    method AcceptChars(numChars: nat)
      requires InBounds()
      modifies this`it, this`resultChars
      ensures InBounds()
      ensures var offset := if end - old(it) <= numChars then end - old(it) else numChars;
        it == old(it) + offset && resultChars == old(resultChars) + offset
    {
      var offset := if end - it <= numChars then end - it else numChars;
      it := it + offset;
      resultChars := resultChars + offset;
    }

    method SkipChars(numChars: nat)
      requires begin <= it <= end <= |text|
      modifies this`it
      ensures it == old(it) + (if end - old(it) <= numChars then end - old(it) else numChars)
    {
      it := it + if end - it <= numChars then end - it else numChars;
    }

    /** Whether the candidate is a number; there should always be one after a hyphen. */
    method CheckFinished() returns (word: Option<Word>)
      requires InBounds()
      ensures word == if resultChars == 0 || text[it - 1] == HYPHEN then None else Some(Word(it - resultChars, it))
    {
      if resultChars == 0 || text[it - 1] == HYPHEN {
        return None;
      }
      return Some(Word(it - resultChars, it));
    }

    /** Letters: the word "one", a lone letter, or an ordinal suffix after a digit. */
    method ReadLetter() returns (accepted: bool)
      requires Scanned() && it < end && IsAsciiAlpha(text[it]) && !IsPostDelimiter(whitespace, text[it])
      modifies this`it, this`resultChars
      ensures accepted <==> Growth(text, whitespace, begin, end, old(it), numDigits, old(resultChars)) > 0
      ensures var n := Growth(text, whitespace, begin, end, old(it), numDigits, old(resultChars));
        it == old(it) + n && resultChars == old(resultChars) + n
    {
      if resultChars == 0 {
        if it + 3 <= end && IsOne(text, it) {
          AcceptChars(3);
          return true;
        }
        return false;
      }
      var previous := text[it - 1];
      if IsAsciiDigit(previous) {
        var next := At(text, it + 1);
        if IsPostDelimiter(whitespace, next) {
          AcceptChars(1);
          return true;
        }
        if IsAsciiAlpha(next) {
          var isTeen := (if it - 1 == begin then SPACE else text[it - 2]) == 0x31 && numDigits == 2;
          if IsOrdinal(previous, text[it], next, isTeen, numDigits) {
            AcceptChars(2);
            return true;
          }
        }
      }
      return false;
    }

    /** A candidate that cannot go on is dropped, and the scan moves to the next delimiter. */
    method GiveUp()
      requires Scanned()
      requires RunFrom(text, whitespace, begin, end, it, numDigits, resultChars) == None
      modifies this`it, this`numDigits, this`resultChars
      ensures Scanned() && numDigits == 0 && resultChars == 0
      ensures it == NextDelimiter(text, whitespace, end, old(it))
    {
      ScanRestarts(text, whitespace, begin, end, it, numDigits, resultChars);
      RestartOnNextDelimiter();
    }

    /** A digit or a hyphen that the candidate can take. */
    method AcceptCounted()
      requires Scanned() && PlainWhitespace(whitespace) && it < end && !IsPostDelimiter(whitespace, text[it])
      requires (IsAsciiDigit(text[it]) && numDigits < MAX_HOUSE_DIGITS) || (text[it] == HYPHEN && numDigits > 0)
      modifies this`it, this`numDigits, this`resultChars
      ensures Scanned() && it == old(it) + 1
    {
      ScanGrows(text, whitespace, begin, end, it, numDigits, resultChars);
      AcceptChars(1);
      numDigits := numDigits + 1;
    }

    method AcceptLetter() returns (accepted: bool)
      requires Scanned() && PlainWhitespace(whitespace) && it < end
      requires IsAsciiAlpha(text[it]) && !IsPostDelimiter(whitespace, text[it])
      modifies this`it, this`resultChars
      ensures Scanned()
      ensures accepted ==> it > old(it)
      ensures !accepted ==> it == old(it) && RunFrom(text, whitespace, begin, end, it, numDigits, resultChars) == None
    {
      if Growth(text, whitespace, begin, end, it, numDigits, resultChars) > 0 {
        ScanGrows(text, whitespace, begin, end, it, numDigits, resultChars);
      }
      accepted := ReadLetter();
    }

    /** One turn of the scan, from a position that is not at a break. */
    method ReadOne()
      requires Scanned() && PlainWhitespace(whitespace) && it < end && !IsPostDelimiter(whitespace, text[it])
      modifies this`it, this`numDigits, this`resultChars
      ensures Scanned() && it > old(it)
    {
      if IsAsciiDigit(text[it]) {
        if numDigits >= MAX_HOUSE_DIGITS {
          GiveUp();
        } else {
          AcceptCounted();
        }
      } else if IsAsciiAlpha(text[it]) {
        var accepted := AcceptLetter();
        if !accepted {
          GiveUp();
        }
      } else if text[it] == HYPHEN && numDigits > 0 {
        AcceptCounted();
      } else {
        GiveUp();
        if it < end {
          ScanSkips(text, whitespace, begin, end, it);
        }
        SkipChars(1);
      }
    }

    /** A break ends the candidate: it is a number, or the scan goes on behind the delimiter. */
    method ReadDelimiter() returns (word: Option<Word>)
      requires Scanned() && PlainWhitespace(whitespace) && it < end && IsPostDelimiter(whitespace, text[it])
      modifies this`it, this`numDigits, this`resultChars
      ensures word.Some? ==> IsFirstRun(text, whitespace, begin, end, word.value)
      ensures word.None? ==> Scanned() && it == old(it) + 1
    {
      word := CheckFinished();
      if word.Some? {
        return;
      }
      ScanRestarts(text, whitespace, begin, end, it, numDigits, resultChars);
      if resultChars > 0 {
        ResetState();
      }
      ScanSkips(text, whitespace, begin, end, it);
      SkipChars(1);
    }

    method Parse(from: nat, to: nat) returns (word: Option<Word>)
      requires from <= to <= |text| && PlainWhitespace(whitespace)
      modifies this
      ensures word.Some? <==> HasRun(text, whitespace, from, to)
      ensures word.Some? ==> IsFirstRun(text, whitespace, from, to, word.value)
    {
      begin, it, end := from, from, to;
      ResetState();
      var iterations := 0;
      var maxIterations := to - from + 1;
      while it != end && iterations < maxIterations
        invariant begin == from && end == to && Scanned()
        invariant iterations <= it - begin
        decreases end - it
      {
        if IsPostDelimiter(whitespace, text[it]) {
          word := ReadDelimiter();
          if word.Some? {
            return;
          }
        } else {
          ReadOne();
        }
        iterations := iterations + 1;
      }
      // Every turn advances, so the fail-safe on the number of turns never stops the scan.
      assert iterations < maxIterations;
      word := CheckFinished();
      if word.None? {
        NoRunAtAll(text, whitespace, begin, end, it, numDigits, resultChars);
      }
    }
  }

  lemma NoRunAtAll(text: String16, whitespace: set<Code>, begin: nat, end: nat, it: nat, digits: nat, chars: nat)
    requires Scanning(text, whitespace, begin, end, it, digits, chars) && it == end
    requires chars == 0 || text[it - 1] == HYPHEN
    ensures !HasRun(text, whitespace, begin, end)
  {
    ScanRestarts(text, whitespace, begin, end, it, digits, chars);
  }

  // ----- What an accepted run looks like -----

  predicate IsNumberChar(c: Code) {
    IsAsciiDigit(c) || IsAsciiAlpha(c) || c == HYPHEN
  }

  /** The number of digits and hyphens in a stretch. */
  function Counted(text: String16, from: nat, limit: nat): nat
    requires from <= limit <= |text|
    decreases limit
  {
    if from == limit then 0
    else Counted(text, from, limit - 1) + if IsAsciiDigit(text[limit - 1]) || text[limit - 1] == HYPHEN then 1 else 0
  }

  lemma {:induction false} CountedSplits(text: String16, from: nat, middle: nat, limit: nat)
    requires from <= middle <= limit <= |text|
    ensures Counted(text, from, limit) == Counted(text, from, middle) + Counted(text, middle, limit)
    decreases limit
  {
    if middle < limit {
      CountedSplits(text, from, middle, limit - 1);
    }
  }

  lemma GrowthShape(text: String16, whitespace: set<Code>, begin: nat, end: nat, it: nat, digits: nat, chars: nat)
    requires begin + chars <= it < end <= |text| && CountInBounds(text, it, digits, chars)
    ensures var n := Growth(text, whitespace, begin, end, it, digits, chars);
      && (forall i | it <= i < it + n :: IsNumberChar(text[i]))
      && (n > 0 ==> digits + Counted(text, it, it + n) == DigitsAfter(text[it], digits))
      && (n > 0 ==> CountInBounds(text, it + n, DigitsAfter(text[it], digits), chars + n))
  {
    var n := Growth(text, whitespace, begin, end, it, digits, chars);
    if n == 1 {
      assert Counted(text, it, it) == 0;
    } else if n == 2 {
      assert Counted(text, it, it + 1) == 0;
    } else if n == 3 {
      assert Counted(text, it, it + 1) == Counted(text, it, it + 2) == 0;
    }
  }

  /** Too many digits and hyphens are there only while the candidate ends in a hyphen. */
  predicate CountInBounds(text: String16, it: nat, digits: nat, chars: nat)
    requires chars <= it <= |text|
  {
    digits > MAX_HOUSE_DIGITS ==> chars > 0 && text[it - 1] == HYPHEN
  }

  lemma {:induction false} AcceptedRunShape(text: String16, whitespace: set<Code>, begin: nat, end: nat, it: nat, digits: nat, chars: nat)
    requires begin + chars <= it <= end <= |text| && CountInBounds(text, it, digits, chars)
    requires RunFrom(text, whitespace, begin, end, it, digits, chars).Some?
    ensures var stop := RunFrom(text, whitespace, begin, end, it, digits, chars).value;
      && it <= stop <= end && begin < stop && it < stop + chars
      && AtBreak(text, whitespace, end, stop)
      && text[stop - 1] != HYPHEN
      && (forall i | it <= i < stop :: IsNumberChar(text[i]))
      && digits + Counted(text, it, stop) <= MAX_HOUSE_DIGITS
    decreases end - it
  {
    if !AtBreak(text, whitespace, end, it) {
      var n := Growth(text, whitespace, begin, end, it, digits, chars);
      GrowthShape(text, whitespace, begin, end, it, digits, chars);
      AcceptedRunShape(text, whitespace, begin, end, it + n, DigitsAfter(text[it], digits), chars + n);
      var stop := RunFrom(text, whitespace, begin, end, it, digits, chars).value;
      CountedSplits(text, it, it + n, stop);
    }
  }

  /**
   A number found: it is not empty, has letters, digits and hyphens only, at most five of the latter
   two, starts with a digit or the "o" of "one", does not end in a hyphen, and is followed by a delimiter or the end.
   */
  lemma FoundNumberShape(text: String16, whitespace: set<Code>, begin: nat, end: nat, word: Word)
    requires begin <= end <= |text| && IsFirstRun(text, whitespace, begin, end, word)
    ensures begin <= word.begin < word.end <= end
    ensures forall i | word.begin <= i < word.end :: IsNumberChar(text[i])
    ensures Counted(text, word.begin, word.end) <= MAX_HOUSE_DIGITS
    ensures IsAsciiDigit(text[word.begin]) || ToLowerASCII(text[word.begin]) == 0x6F
    ensures text[word.end - 1] != HYPHEN && AtBreak(text, whitespace, end, word.end)
  {
    AcceptedRunShape(text, whitespace, begin, end, word.begin, 0, 0);
  }

  predicate AllDigits(text: String16, from: nat, to: nat)
    requires to <= |text|
  {
    forall i | from <= i < to :: IsAsciiDigit(text[i])
  }

  /** Plain digits are accepted exactly when there are at most five of them. */
  lemma {:induction false} PlainDigits(text: String16, whitespace: set<Code>, begin: nat, end: nat, start: nat, it: nat, stop: nat)
    requires begin <= start <= it <= stop <= end <= |text| && start < stop && PlainWhitespace(whitespace)
    requires it - start <= MAX_HOUSE_DIGITS
    requires AllDigits(text, start, stop) && AtBreak(text, whitespace, end, stop)
    ensures RunFrom(text, whitespace, begin, end, it, it - start, it - start)
         == if stop - start <= MAX_HOUSE_DIGITS then Some(stop) else None
    decreases stop - it
  {
    if it < stop && it - start < MAX_HOUSE_DIGITS {
      PlainDigits(text, whitespace, begin, end, start, it + 1, stop);
    }
  }

  // ----- Digits behind letters -----

  /** A digit follows a letter somewhere in the stretch. */
  ghost predicate HasDigitAfterLetter(text: String16, start: nat, stop: nat)
    requires stop <= |text|
  {
    exists i, j :: start <= i < j < stop && IsAsciiAlpha(text[i]) && IsAsciiDigit(text[j])
  }

  ghost predicate IsFirstLetter(text: String16, start: nat, stop: nat, at: nat)
    requires stop <= |text|
  {
    start <= at < stop && IsAsciiAlpha(text[at]) && forall i | start <= i < at :: !IsAsciiAlpha(text[i])
  }

  /** Where the letters that begin at `at` are over: the word "one", an ordinal suffix, or a single letter. */
  function GroupEnd(text: String16, start: nat, at: nat): nat {
    if at == start then at + 3 else if IsAsciiAlpha(At(text, at + 1)) then at + 2 else at + 1
  }

  lemma {:induction false} NoFinalHyphen(text: String16, whitespace: set<Code>, begin: nat, end: nat, it: nat, digits: nat, chars: nat)
    requires begin + chars <= it <= end <= |text| && RunFrom(text, whitespace, begin, end, it, digits, chars).Some?
    ensures var stop := RunFrom(text, whitespace, begin, end, it, digits, chars).value;
      it <= stop <= end && begin < stop && text[stop - 1] != HYPHEN
    decreases end - it
  {
    if !AtBreak(text, whitespace, end, it) {
      var n := Growth(text, whitespace, begin, end, it, digits, chars);
      NoFinalHyphen(text, whitespace, begin, end, it + n, DigitsAfter(text[it], digits), chars + n);
    }
  }

  /** An accepted run that goes on behind a character other than a digit still has a digit ahead. */
  lemma {:induction false} DigitAhead(text: String16, whitespace: set<Code>, begin: nat, end: nat, it: nat, digits: nat, chars: nat, stop: nat)
    returns (j: nat)
    requires begin + chars <= it < stop <= end <= |text| && chars > 0 && !IsAsciiDigit(text[it - 1])
    requires RunFrom(text, whitespace, begin, end, it, digits, chars) == Some(stop)
    ensures it <= j < stop && IsAsciiDigit(text[j])
    decreases end - it
  {
    if IsAsciiDigit(text[it]) {
      j := it;
    } else {
      NoFinalHyphen(text, whitespace, begin, end, it, digits, chars);
      j := DigitAhead(text, whitespace, begin, end, it + 1, DigitsAfter(text[it], digits), chars + 1, stop);
    }
  }

  /** From the first letter on: the run ends with the letters, or has a digit behind them. */
  lemma LettersThenDigits(text: String16, whitespace: set<Code>, begin: nat, end: nat, start: nat, at: nat, digits: nat, stop: nat)
    requires begin <= start <= at < stop <= end <= |text| && IsFirstLetter(text, start, stop, at)
    requires RunFrom(text, whitespace, begin, end, at, digits, at - start) == Some(stop)
    ensures (exists j :: at < j < stop && IsAsciiDigit(text[j])) <==> GroupEnd(text, start, at) < stop
  {
    var n := Growth(text, whitespace, begin, end, at, digits, at - start);
    var behind := at + n;
    if behind < stop {
      var j := DigitAhead(text, whitespace, begin, end, behind, digits, at - start + n, stop);
    }
  }

  lemma {:induction false} FirstLetterDecides(text: String16, whitespace: set<Code>, begin: nat, end: nat, start: nat, it: nat, digits: nat, stop: nat, at: nat)
    requires begin <= start <= it <= at < stop <= end <= |text| && IsFirstLetter(text, start, stop, at)
    requires RunFrom(text, whitespace, begin, end, it, digits, it - start) == Some(stop)
    ensures (exists j :: at < j < stop && IsAsciiDigit(text[j])) <==> GroupEnd(text, start, at) < stop
    decreases end - it
  {
    if it == at {
      LettersThenDigits(text, whitespace, begin, end, start, at, digits, stop);
    } else {
      FirstLetterDecides(text, whitespace, begin, end, start, it + 1, DigitsAfter(text[it], digits), stop, at);
    }
  }

  /**
   In an accepted run a digit follows a letter exactly when the run goes on behind its first letters:
   behind "one", behind an ordinal suffix, or behind a single letter.
   */
  lemma DigitFollowsLetterIff(text: String16, whitespace: set<Code>, begin: nat, end: nat, start: nat, stop: nat)
    requires begin <= start <= end <= |text| && stop <= end
    requires RunAt(text, whitespace, begin, end, start) == Some(stop)
    ensures HasDigitAfterLetter(text, start, stop)
       <==> exists at :: IsFirstLetter(text, start, stop, at) && GroupEnd(text, start, at) < stop
  {
    if at: nat :| IsFirstLetter(text, start, stop, at) {
      FirstLetterDecides(text, whitespace, begin, end, start, start, 0, stop, at);
      assert forall other :: IsFirstLetter(text, start, stop, other) ==> other == at;
      assert forall i | start <= i < stop && IsAsciiAlpha(text[i]) :: at <= i;
    } else {
      NoFirstLetterNoLetter(text, start, stop, stop);
    }
  }

  lemma {:induction false} NoFirstLetterNoLetter(text: String16, start: nat, stop: nat, limit: nat)
    requires limit <= stop <= |text| && !exists at :: IsFirstLetter(text, start, stop, at)
    ensures forall i | start <= i < limit :: !IsAsciiAlpha(text[i])
    decreases limit
  {
    if start < limit {
      NoFirstLetterNoLetter(text, start, stop, limit - 1);
      assert !IsFirstLetter(text, start, stop, limit - 1);
    }
  }

  /** "1st5" and "one5" are such runs. */
  const ORDINAL_AND_DIGIT: String16 := [0x31, 0x73, 0x74, 0x35]
  const ONE_AND_DIGIT: String16 := [0x6F, 0x6E, 0x65, 0x35]

  lemma DigitAfterOrdinal(whitespace: set<Code>)
    requires PlainWhitespace(whitespace)
    ensures RunAt(ORDINAL_AND_DIGIT, whitespace, 0, 4, 0) == Some(4)
    ensures IsFirstRun(ORDINAL_AND_DIGIT, whitespace, 0, 4, Word(0, 4)) && HasDigitAfterLetter(ORDINAL_AND_DIGIT, 0, 4)
  {
    var t := ORDINAL_AND_DIGIT;
    assert RunFrom(t, whitespace, 0, 4, 4, 2, 4) == Some(4);
    assert RunFrom(t, whitespace, 0, 4, 3, 1, 3) == RunFrom(t, whitespace, 0, 4, 4, 2, 4);
    assert Growth(t, whitespace, 0, 4, 1, 1, 1) == 2;
    assert RunFrom(t, whitespace, 0, 4, 1, 1, 1) == RunFrom(t, whitespace, 0, 4, 3, 1, 3);
    assert IsAsciiAlpha(t[1]) && IsAsciiDigit(t[3]);
  }

  lemma DigitAfterOne(whitespace: set<Code>)
    requires PlainWhitespace(whitespace)
    ensures RunAt(ONE_AND_DIGIT, whitespace, 0, 4, 0) == Some(4)
    ensures IsFirstRun(ONE_AND_DIGIT, whitespace, 0, 4, Word(0, 4)) && HasDigitAfterLetter(ONE_AND_DIGIT, 0, 4)
  {
    var t := ONE_AND_DIGIT;
    assert RunFrom(t, whitespace, 0, 4, 4, 1, 4) == Some(4);
    assert Growth(t, whitespace, 0, 4, 0, 0, 0) == 3;
    assert RunFrom(t, whitespace, 0, 4, 3, 0, 3) == RunFrom(t, whitespace, 0, 4, 4, 1, 4);
    assert IsAsciiAlpha(t[0]) && IsAsciiDigit(t[3]);
  }

  // ----- Delimiters by their low byte -----

  const QUOTES_AND_COMMA: set<Code> := {',' as int, '\"' as int, '\'' as int}

  /**
   The narrowing search goes by the low byte of a character, and zero is found too: a character that
   is neither whitespace nor one of those looked for counts as a delimiter exactly when its low byte
   is one of those or zero, as that of U+012C is.
   */
  lemma NarrowedDelimiters(whitespace: set<Code>, c: Code)
    ensures (IsPostDelimiter(whitespace, c) <==> c in whitespace || c in QUOTES_AND_COMMA)
       <==> c in whitespace || c in QUOTES_AND_COMMA || c % 0x100 !in QUOTES_AND_COMMA + {0}
    ensures c in whitespace || c in QUOTES_AND_COMMA ==> IsPostDelimiter(whitespace, c)
    ensures IsPostDelimiter(whitespace, 0x12C)
  {
  }
}
