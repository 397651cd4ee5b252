/**
 Splitting text into words, and the checks made on single words: state names, location names and
 ZIP codes. The tables of names and ranges are parameters of a known shape.
 */
module AddressWords {
  import opened AddressText
  import opened Options
  import opened HouseNumbers

  // ----- Words -----

  type Delimiters = set<Code>

  function WordEnd(text: String16, delimiters: Delimiters, at: nat): (end: nat)
    requires at <= |text|
    ensures at <= end <= |text|
    ensures forall i | at <= i < end :: text[i] !in delimiters
    ensures end < |text| ==> text[end] in delimiters
    decreases |text| - at
  {
    if at == |text| || text[at] in delimiters then at else WordEnd(text, delimiters, at + 1)
  }

  /** The first word at or after a position. */
  function NextWord(text: String16, delimiters: Delimiters, at: nat): (word: Option<Word>)
    requires at <= |text|
    ensures word.Some? ==> at <= word.value.begin < word.value.end <= |text|
    ensures word.Some? ==> forall i | word.value.begin <= i < word.value.end :: text[i] !in delimiters
    decreases |text| - at
  {
    if at == |text| then None
    else if text[at] in delimiters then NextWord(text, delimiters, at + 1)
    else Some(Word(at, WordEnd(text, delimiters, at)))
  }

  /** What the word list gets next: the next word of the text, or an empty word at its end. */
  function WordAfter(text: String16, delimiters: Delimiters, word: Word): Word
    requires word.Within(text)
  {
    var next := NextWord(text, delimiters, word.end);
    if next.Some? then next.value else Word(|text|, |text|)
  }

  /** The words of a text: one to begin with, and each the one that follows its predecessor. */
  function Nth(text: String16, delimiters: Delimiters, first: Word, k: nat): (word: Word)
    requires first.Within(text)
    ensures word.Within(text)
    ensures k > 0 ==> first.end <= word.begin
  {
    if k == 0 then first else WordAfter(text, delimiters, Nth(text, delimiters, first, k - 1))
  }

  lemma {:induction false} WordsAscend(text: String16, delimiters: Delimiters, first: Word, j: nat, k: nat)
    requires first.Within(text) && j <= k
    ensures Nth(text, delimiters, first, j).end <= Nth(text, delimiters, first, k).end
    ensures j < k ==> Nth(text, delimiters, first, j).end <= Nth(text, delimiters, first, k).begin
    decreases k - j
  {
    if j < k {
      WordsAscend(text, delimiters, first, j, k - 1);
      var before := Nth(text, delimiters, first, k - 1);
      assert Nth(text, delimiters, first, k) == WordAfter(text, delimiters, before);
      assert before.end <= WordAfter(text, delimiters, before).begin;
    }
  }

  /** Empty words stand at the end only: no word follows one. */
  lemma {:induction false} EmptyWordsAreLast(text: String16, delimiters: Delimiters, first: Word, j: nat, k: nat)
    requires first.Within(text) && 0 < j <= k && Nth(text, delimiters, first, k).Length() > 0
    ensures Nth(text, delimiters, first, j).Length() > 0
    decreases k - j
  {
    if j < k {
      EmptyWordsAreLast(text, delimiters, first, j + 1, k);
    }
  }

  /** How many characters of a stretch are of a given kind. */
  function CountIn(text: String16, kind: set<Code>, from: nat, limit: nat): nat
    requires from <= limit <= |text|
    decreases limit
  {
    if from == limit then 0 else CountIn(text, kind, from, limit - 1) + if text[limit - 1] in kind then 1 else 0
  }

  lemma {:induction false} CountInSplits(text: String16, kind: set<Code>, from: nat, middle: nat, limit: nat)
    requires from <= middle <= limit <= |text|
    ensures CountIn(text, kind, from, limit) == CountIn(text, kind, from, middle) + CountIn(text, kind, middle, limit)
    decreases limit
  {
    if middle < limit {
      CountInSplits(text, kind, from, middle, limit - 1);
    }
  }

  /** The tokenizer, set to return delimiters as tokens of their own. */
  class Tokenizer {
    const text: String16
    const delimiters: Delimiters
    var tokenBegin: nat
    var tokenEnd: nat
    var tokenIsDelim: bool

    constructor (text: String16, delimiters: Delimiters, from: nat)
      requires from <= |text|
      ensures this.text == text && this.delimiters == delimiters && tokenEnd == from && Valid()
    {
      this.text, this.delimiters := text, delimiters;
      tokenBegin, tokenEnd, tokenIsDelim := from, from, false;
    }

    predicate Valid()
      reads this
    {
      tokenBegin <= tokenEnd <= |text|
    }

    method GetNext() returns (ok: bool)
      requires Valid()
      modifies this
      ensures Valid() && tokenBegin == old(tokenEnd)
      ensures ok <==> old(tokenEnd) < |text|
      ensures !ok ==> tokenEnd == |text| && !tokenIsDelim
      ensures ok ==> (tokenIsDelim <==> text[tokenBegin] in delimiters)
      ensures ok ==> tokenEnd == if tokenIsDelim then tokenBegin + 1 else WordEnd(text, delimiters, tokenBegin)
    {
      tokenIsDelim := false;
      tokenBegin := tokenEnd;
      if tokenEnd == |text| {
        return false;
      }
      tokenEnd := tokenEnd + 1;
      if text[tokenBegin] in delimiters {
        tokenIsDelim := true;
        return true;
      }
      while tokenEnd != |text| && text[tokenEnd] !in delimiters
        invariant tokenBegin < tokenEnd <= |text| && !tokenIsDelim && tokenBegin == old(tokenEnd)
        invariant WordEnd(text, delimiters, tokenEnd) == WordEnd(text, delimiters, tokenBegin)
        decreases |text| - tokenEnd
      {
        tokenEnd := tokenEnd + 1;
      }
      return true;
    }

    /** Goes on to the next token that is no delimiter, counting those of a given kind on the way. */
    method GetNextWord(counted: set<Code>) returns (ok: bool, count: nat)
      requires Valid()
      modifies this
      ensures Valid()
      ensures ok <==> NextWord(text, delimiters, old(tokenEnd)).Some?
      ensures ok ==> Word(tokenBegin, tokenEnd) == NextWord(text, delimiters, old(tokenEnd)).value
      ensures !ok ==> tokenBegin == tokenEnd == |text|
      ensures count == CountIn(text, counted * delimiters, old(tokenEnd), if ok then tokenBegin else |text|)
    {
      count := 0;
      ok := GetNext();
      while ok && tokenIsDelim
        invariant Valid() && old(tokenEnd) <= tokenBegin
        invariant count == CountIn(text, counted * delimiters, old(tokenEnd), tokenBegin)
        invariant !ok ==> tokenBegin == tokenEnd == |text|
        invariant ok ==> tokenBegin < |text| && (tokenIsDelim <==> text[tokenBegin] in delimiters)
        invariant ok ==> tokenEnd == if tokenIsDelim then tokenBegin + 1 else WordEnd(text, delimiters, tokenBegin)
        invariant NextWord(text, delimiters, tokenBegin) == NextWord(text, delimiters, old(tokenEnd))
        decreases |text| - tokenEnd, ok
      {
        if text[tokenBegin] in counted {
          count := count + 1;
        }
        ok := GetNext();
      }
    }
  }

  // ----- The tables -----

  /**
   A state name in lower case, its words separated by single spaces, and how many of its
   characters must be met: not always all of them (address_parser_internal.cc:348).
   */
  datatype StateName = StateName(name: seq<Code>, firstWordLength: nat, length: nat, stateIndex: nat)

  datatype LocationName = LocationName(name: seq<Code>, length: nat, allowPlural: bool)

  /** The first two digits a state's ZIP codes may have: a range and two more values. */
  datatype ZipRange = ZipRange(low: int, high: int, exception1: int, exception2: int)

  datatype Tables = Tables(
    stateCodes: map<(Code, Code), nat>,
    stateNames: map<Code, seq<StateName>>,
    locationNames: map<Code, seq<LocationName>>,
    zipRanges: seq<ZipRange>,
    whitespace: set<Code>)

  const NEWLINE_DELIMITERS: set<Code> := {0x0A, COMMA, 0x2A, 0x2022}

  const MAX_NAME_WORD_LENGTH: nat := 25

  predicate NoSpaceIn(name: seq<Code>, i: nat, j: nat)
    requires i <= j <= |name|
  {
    forall k | i <= k < j :: name[k] != SPACE
  }

  predicate SpaceAt(name: seq<Code>, k: nat) {
    k < |name| && name[k] == SPACE
  }

  /** The stretch of a name that counts ends where one of its words does, and no word is over-long. */
  ghost predicate WellFormedName(entry: StateName) {
    && 0 < entry.length <= |entry.name|
    && (entry.length == |entry.name| || SpaceAt(entry.name, entry.length))
    && (forall k: nat {:trigger SpaceAt(entry.name, k)} :: SpaceAt(entry.name, k) ==> k + 1 < |entry.name| && !SpaceAt(entry.name, k + 1))
    && !SpaceAt(entry.name, 0)
    && (forall i: nat, j: nat | i <= j <= |entry.name| && NoSpaceIn(entry.name, i, j) :: j - i <= MAX_NAME_WORD_LENGTH)
  }

  /** The length given for a name's first word is right, and it is no single letter. */
  ghost predicate CountsFirstWord(entry: StateName) {
    && 2 <= entry.firstWordLength <= entry.length <= |entry.name| && NoSpaceIn(entry.name, 0, entry.firstWordLength)
    && (entry.firstWordLength == |entry.name| || SpaceAt(entry.name, entry.firstWordLength))
  }

  ghost predicate ListsFirstWords(names: seq<StateName>) {
    forall i | 0 <= i < |names| :: CountsFirstWord(names[i])
  }

  ghost predicate WellFormedTables(t: Tables) {
    && PlainWhitespace(t.whitespace)
    && SPACE in t.whitespace
    && (forall c, i | c in t.stateNames && 0 <= i < |t.stateNames[c]| ::
          WellFormedName(t.stateNames[c][i]) && t.stateNames[c][i].stateIndex < |t.zipRanges|)
    && (forall c | c in t.stateNames :: 'a' as int <= c <= 'w' as int && ListsFirstWords(t.stateNames[c]))
    && (forall code: (Code, Code) | code in t.stateCodes :: t.stateCodes[code] < |t.zipRanges| && 'a' as int <= code.0 <= 'w' as int)
    && (forall c, i | c in t.locationNames && 0 <= i < |t.locationNames[c]| ::
          t.locationNames[c][i].length == |t.locationNames[c][i].name| > 0)
  }

  function Delims(t: Tables): Delimiters {
    t.whitespace + NEWLINE_DELIMITERS
  }

  function Lower(s: seq<Code>): (lower: seq<Code>)
    ensures |lower| == |s|
  {
    seq(|s|, i requires 0 <= i < |s| => ToLowerASCII(s[i]))
  }

  function TextOf(text: String16, word: Word): String16
    requires word.Within(text)
  {
    text[word.begin..word.end]
  }

  // ----- ZIP codes -----

  predicate ZipShape(zip: seq<Code>) {
    && (|zip| == 5 || |zip| == 10)
    && forall i | 0 <= i < |zip| :: IsAsciiDigit(zip[i]) || (i == 5 && zip[i] == HYPHEN)
  }

  predicate InRange(r: ZipRange, prefix: int) {
    r.low <= prefix <= r.high || prefix == r.exception1 || prefix == r.exception2
  }

  predicate IsZip(t: Tables, zip: seq<Code>, state: nat)
    requires state < |t.zipRanges|
  {
    ZipShape(zip) && InRange(t.zipRanges[state], (zip[0] - ZERO) * 10 + (zip[1] - ZERO))
  }

  method IsZipValid(text: String16, word: Word, t: Tables, state: nat) returns (valid: bool)
    requires word.Within(text) && state < |t.zipRanges|
    ensures valid <==> IsZip(t, TextOf(text, word), state)
  {
    var length := word.end - word.begin;
    if length != 5 && length != 10 {
      return false;
    }

    ghost var zip := TextOf(text, word);
    var it := word.begin;
    while it != word.end
      invariant word.begin <= it <= word.end
      invariant forall i | 0 <= i < it - word.begin :: IsAsciiDigit(zip[i]) || (i == 5 && zip[i] == HYPHEN)
      decreases word.end - it
    {
      var pos := it - word.begin;
      assert zip[pos] == text[it];
      if !(IsAsciiDigit(text[it]) || (text[it] == HYPHEN && pos == 5)) {
        return false;
      }
      it := it + 1;
    }
    return InRange(t.zipRanges[state], (text[word.begin] - ZERO) * 10 + (text[word.begin + 1] - ZERO));
  }

  // ----- Location names -----

  predicate MatchesLocation(word: seq<Code>, entry: LocationName) {
    || Lower(word) == entry.name
    || (entry.allowPlural && |word| == |entry.name| + 1 && Lower(word[..|entry.name|]) == entry.name && word[|entry.name|] == 0x73)
  }

  ghost predicate IsLocation(t: Tables, word: seq<Code>) {
    && word != [] && IsAsciiAlpha(word[0])
    && ToLowerASCII(word[0]) in t.locationNames
    && exists i :: 0 <= i < |t.locationNames[ToLowerASCII(word[0])]|
                   && MatchesLocation(word, t.locationNames[ToLowerASCII(word[0])][i])
  }

  /** Compares letter by letter; a plural "s" may stand behind the name. */
  method EqualsWithPlural(word: seq<Code>, name: seq<Code>, allowPlural: bool) returns (equal: bool)
    ensures equal <==> MatchesLocation(word, LocationName(name, |name|, allowPlural))
  {
    var it := 0;
    while it != |word|
      invariant it <= |word| && it <= |name|
      invariant forall k | 0 <= k < it :: ToLowerASCII(word[k]) == name[k]
      decreases |word| - it
    {
      if it == |name| && allowPlural && word[it] == 0x73 && it + 1 == |word| {
        assert Lower(word[..|name|]) == name;
        return true;
      }
      if it == |name| || ToLowerASCII(word[it]) != name[it] {
        if it < |name| {
          assert Lower(word)[it] != name[it];
          if |word| == |name| + 1 {
            assert Lower(word[..|name|])[it] != name[it];
          }
        }
        return false;
      }
      it := it + 1;
    }
    assert Lower(word)[..] == name[..it];
    return it == |name|;
  }

  method IsValidLocationName(text: String16, word: Word, t: Tables) returns (valid: bool)
    requires word.Within(text) && WellFormedTables(t)
    ensures valid <==> IsLocation(t, TextOf(text, word))
  {
    // An empty word can only stand at the end of the text, where the terminating zero is read.
    if word.begin == word.end || !IsAsciiAlpha(text[word.begin]) {
      return false;
    }
    var content := TextOf(text, word);
    var letter := ToLowerASCII(text[word.begin]);
    if letter !in t.locationNames {
      return false;
    }
    var names := t.locationNames[letter];
    for i := 0 to |names|
      invariant forall k | 0 <= k < i :: !MatchesLocation(content, names[k])
    {
      if names[i].length != |content| && names[i].allowPlural && names[i].length + 1 != |content| {
        continue;
      }
      var equal := EqualsWithPlural(content, names[i].name, names[i].allowPlural);
      if equal {
        return true;
      }
    }
    return false;
  }
}
