/** Text as the address scanner reads it: 16-bit characters, with a zero one past the last. */
module AddressText {

  type Code = c: int | 0 <= c < 0x1_0000

  type String16 = seq<Code>

  /** The character at a position; one past the last is the terminating zero. */
  function At(text: String16, i: nat): Code {
    if i < |text| then text[i] else 0
  }

  const SPACE: Code := 0x20
  const COMMA: Code := 0x2C
  const DOUBLE_QUOTE: Code := 0x22
  const SINGLE_QUOTE: Code := 0x27
  const HYPHEN: Code := 0x2D
  const COLON: Code := 0x3A
  const ZERO: Code := 0x30

  predicate IsAsciiDigit(c: Code) {
    0x30 <= c <= 0x39
  }

  predicate IsAsciiAlpha(c: Code) {
    0x41 <= c <= 0x5A || 0x61 <= c <= 0x7A
  }

  function ToLowerASCII(c: Code): Code {
    if 0x41 <= c <= 0x5A then c + 0x20 else c
  }

  /** The whitespace characters are a parameter; all that matters is that none of them is part of a number. */
  predicate PlainWhitespace(whitespace: set<Code>) {
    forall c | c in whitespace :: !IsAsciiDigit(c) && !IsAsciiAlpha(c) && c != HYPHEN && c != COLON
  }

  /**
   The search in the short string of quotes and the comma narrows its argument to eight bits and
   also finds the terminating zero, so characters whose low byte is one of the four match too.
   */
  predicate FoundAmongQuotes(c: Code) {
    var low := c % 0x100;
    low == COMMA || low == DOUBLE_QUOTE || low == SINGLE_QUOTE || low == 0
  }

  predicate IsPostDelimiter(whitespace: set<Code>, c: Code) {
    c in whitespace || FoundAmongQuotes(c)
  }

  predicate IsPreDelimiter(whitespace: set<Code>, c: Code) {
    c == COLON || IsPostDelimiter(whitespace, c)
  }

  /** A stretch of the text. */
  datatype Word = Word(begin: nat, end: nat)
  {
    predicate Within(text: String16) {
      begin <= end <= |text|
    }

    function Length(): int {
      end - begin
    }
  }
}
