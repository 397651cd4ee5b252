/** What an address is: in terms of the lookups the finder makes, and in terms of what stands in the text. */
module Addresses {
  import opened AddressText
  import opened Options
  import opened HouseNumbers
  import opened HouseNumberGrammar
  import opened AddressWords
  import opened StateNames
  import opened StateSpelling

  const MIN_ADDRESS_WORDS: nat := 3
  const MAX_ADDRESS_WORDS: nat := 12
  const MAX_ADDRESS_LINES: nat := 5
  const MAX_LOCATION_NAME_DISTANCE: nat := 4

  // ----- What an address is -----

  predicate ShortWord(s: Source, k: nat)
    requires s.Valid()
  {
    |s.Text(k)| <= MAX_NAME_WORD_LENGTH
  }

  ghost predicate LocationAt(s: Source, k: nat)
    requires s.Valid()
  {
    1 <= k <= MAX_LOCATION_NAME_DISTANCE && IsLocation(s.tables, s.Text(k))
  }

  const ET: seq<Code> := [0x65, 0x74]
  const AL: seq<Code> := [0x61, 0x6C]

  predicate EtAl(s: Source, k: nat)
    requires s.Valid() && k > 0
  {
    Lower(s.Text(k - 1)) == ET && Lower(s.Text(k)) == AL
  }

  predicate EndsText(s: Source, last: nat)
    requires s.Valid()
  {
    NextWord(s.text, Delims(s.tables), s.WordOf(last).end).None?
  }

  predicate ZipAt(s: Source, k: nat, state: nat)
    requires s.Valid()
  {
    state < |s.tables.zipRanges| && IsZip(s.tables, s.Text(k), state)
  }

  /** An address ends with a ZIP code valid for the state, or with the state where the text ends. */
  predicate Closes(s: Source, m: StateMatch, end: nat)
    requires s.Valid()
  {
    || (EndsText(s, m.last) && end == s.WordOf(m.last).end)
    || (ZipAt(s, m.last + 1, m.index) && end == s.WordOf(m.last + 1).end)
  }

  /** An address whose state starts at word `k`, counted from the house number. */
  ghost predicate IsAddress(s: Source, k: nat, m: StateMatch, end: nat)
    requires s.Valid()
  {
    && MIN_ADDRESS_WORDS < k <= MAX_ADDRESS_WORDS + 1
    && StateAt(s, k) == Some(m) && k <= m.last && Spells(s, k, m)
    && (exists l | 1 <= l < k :: LocationAt(s, l))
    && (forall l | 1 <= l <= k :: ShortWord(s, l))
    && !EtAl(s, k)
    && SeenLines(s, k) <= MAX_ADDRESS_LINES
    && Closes(s, m, end)
  }

  ghost predicate HasNumber(s: Source, k: nat)
    requires s.Valid()
  {
    HasRun(s.text, s.tables.whitespace, s.WordOf(k).begin, s.WordOf(k).end)
  }

  /** The line breaks between a word and the word before. */
  function Gap(s: Source, n: nat): nat
    requires s.Valid() && n > 0
  {
    WordsAscend(s.text, Delims(s.tables), s.first, n - 1, n);
    CountIn(s.text, NEWLINE_DELIMITERS * Delims(s.tables), s.WordOf(n - 1).end, s.WordOf(n).begin)
  }

  /** How far the text is read when a state is looked up: to the end of what names are compared with, or behind the state. */
  function ReadsTo(s: Source, j: nat): nat
    requires s.Valid()
  {
    match StateAt(s, j)
    case None => StateReads(s, j)
    case Some(m) => Max(StateReads(s, j), m.last + 1)
  }

  ghost predicate ReadAheadFrom(s: Source, j: nat, n: nat)
    requires s.Valid()
  {
    MIN_ADDRESS_WORDS < j < n <= ReadsTo(s, j) && !LocationAt(s, j)
  }

  /** Looking up a state at an earlier word reads on to word `n`. */
  ghost predicate ReadAhead(s: Source, n: nat)
    requires s.Valid()
  {
    exists j :: ReadAheadFrom(s, j, n)
  }

  /** The lines up to word `k`, less the line breaks before words that a lookup reads ahead. */
  ghost function SeenLines(s: Source, k: nat): nat
    requires s.Valid()
  {
    LinesBut(Gaps(s), WordsAhead(s), k)
  }

  /** The lines up to word `k`, less the line breaks before some words. */
  ghost function LinesBut(gaps: nat -> nat, skipped: iset<nat>, k: nat): nat {
    if k == 0 then 1 else LinesBut(gaps, skipped, k - 1) + if k in skipped then 0 else gaps(k)
  }

  /** The line breaks before each word. */
  function Gaps(s: Source): nat -> nat
    requires s.Valid()
  {
    (n: nat) => if n > 0 then Gap(s, n) else 0
  }

  ghost function WordsAhead(s: Source): iset<nat>
    requires s.Valid()
  {
    iset n: nat | ReadAhead(s, n)
  }

  /** These are the words read ahead. */
  ghost predicate AreAhead(s: Source, ahead: iset<nat>)
    requires s.Valid()
  {
    forall n: nat {:trigger ReadAhead(s, n)} :: n in ahead <==> ReadAhead(s, n)
  }

  /** Neither a long word nor a number. */
  ghost predicate IsOrdinary(s: Source, k: nat)
    requires s.Valid()
  {
    ShortWord(s, k) && !HasNumber(s, k)
  }

  ghost predicate IsPassedOver(s: Source, k: nat)
    requires s.Valid()
  {
    LocationAt(s, k) || k <= MIN_ADDRESS_WORDS || StateAt(s, k) == None
  }

  /** Neither a long word, nor another number, nor a state comes before word `k`. */
  ghost predicate NothingElseBefore(s: Source, k: nat)
    requires s.Valid()
  {
    && (forall l | 1 <= l <= k :: IsOrdinary(s, l))
    && (forall l | 1 <= l < k :: IsPassedOver(s, l))
  }

  /** A plain address: few lines seen, no second number, and a valid ZIP code after the state. */
  ghost predicate IsPlainAddress(s: Source, k: nat, m: StateMatch)
    requires s.Valid()
  {
    && MIN_ADDRESS_WORDS < k <= MAX_ADDRESS_WORDS + 1
    && StateAt(s, k) == Some(m) && !LocationAt(s, k)
    && (exists l | 1 <= l < k :: LocationAt(s, l))
    && NothingElseBefore(s, k)
    && !EtAl(s, k)
    && SeenLines(s, k) <= MAX_ADDRESS_LINES
    && ZipAt(s, m.last + 1, m.index)
  }

  /** Every plain address is an address. */
  lemma PlainAddressIsAddress(s: Source, k: nat, m: StateMatch)
    requires s.Valid() && WellFormedTables(s.tables) && IsPlainAddress(s, k, m)
    ensures IsAddress(s, k, m, s.WordOf(m.last + 1).end)
  {
    MatchesSpell(s, k);
    forall l | 1 <= l <= k ensures ShortWord(s, l) {
      assert IsOrdinary(s, l);
    }
  }

  // ----- The same in terms of the text -----

  /** Words end at whitespace, a line feed, a comma, an asterisk or a bullet. */
  predicate SeparatesWords(t: Tables, c: Code) {
    c in t.whitespace || c in {'\n' as int, ',' as int, '*' as int, 0x2022}
  }

  /** The beginning of the text, or a character behind which a number may start or a word ends. */
  predicate IsLeftBoundary(text: String16, t: Tables, at: nat) {
    at <= |text| && (MayStart(text, t.whitespace, 0, at) || SeparatesWords(t, text[at - 1]))
  }

  /** The word is this name, in either case, letter for letter. */
  predicate IsInEitherCase(word: seq<Code>, name: seq<Code>) {
    |word| == |name| && forall i | 0 <= i < |word| :: (if 'A' as int <= word[i] <= 'Z' as int then word[i] as int + 32 else word[i] as int) == name[i]
  }

  /** The word is a name listed under its first letter, or one that may be plural with a small "s" behind it. */
  ghost predicate IsLocationText(t: Tables, word: seq<Code>) {
    && word != [] && StateSpelling.IsLetter(word[0])
    && SmallLetter(word[0]) in t.locationNames
    && exists i :: 0 <= i < |t.locationNames[SmallLetter(word[0])]| && IsPlaceName(word, t.locationNames[SmallLetter(word[0])][i])
  }

  function SmallLetter(c: Code): Code
    requires StateSpelling.IsLetter(c)
  {
    if c < 'a' as int then c + 32 else c
  }

  predicate IsPlaceName(word: seq<Code>, entry: LocationName)
    requires word != []
  {
    || IsInEitherCase(word, entry.name)
    || (entry.allowPlural && IsInEitherCase(word[..|word| - 1], entry.name) && word[|word| - 1] == 's' as int)
  }

  ghost predicate LocationStands(s: Source, k: nat)
    requires s.Valid()
  {
    1 <= k <= 4 && IsLocationText(s.tables, s.Text(k))
  }

  ghost predicate NumberStands(s: Source, k: nat)
    requires s.Valid()
  {
    HasNumeral(s.text, s.tables.whitespace, s.WordOf(k).begin, s.WordOf(k).end)
  }

  predicate AreLetters(word: seq<Code>, first: char, second: char) {
    |word| == 2 && Is(word[0], first) && Is(word[1], second)
  }

  /** Five digits, or ten of which the sixth may be a hyphen, and the first two in the state's range. */
  predicate IsZipText(t: Tables, zip: seq<Code>, state: nat) {
    && state < |t.zipRanges| && (|zip| == 5 || |zip| == 10)
    && (forall i | 0 <= i < |zip| :: HouseNumberGrammar.IsDigit(zip[i]) || (i == 5 && zip[i] == '-' as int))
    && var r, prefix := t.zipRanges[state], (zip[0] as int - '0' as int) * 10 + (zip[1] as int - '0' as int);
       r.low <= prefix <= r.high || prefix == r.exception1 || prefix == r.exception2
  }

  /** No word follows. */
  ghost predicate NothingBehind(s: Source, last: nat)
    requires s.Valid()
  {
    forall i | s.WordOf(last).end <= i < |s.text| :: SeparatesWords(s.tables, s.text[i])
  }

  /**
   An address, from the house number on: a location name among the next four words, a state behind three to twelve words of
   at most 25 characters, few lines, and then a ZIP code valid for the state or the end of the text.
   */
  ghost predicate IsAddressText(s: Source, k: nat, m: StateMatch, end: nat)
    requires s.Valid()
  {
    && 4 <= k <= 13 && StateStands(s, k, m)
    && (exists l | 1 <= l < k :: LocationStands(s, l))
    && (forall l | 1 <= l <= k :: |s.Text(l)| <= 25)
    && !(AreLetters(s.Text(k - 1), 'e', 't') && AreLetters(s.Text(k), 'a', 'l'))
    && SeenLines(s, k) <= 5
    && ((NothingBehind(s, m.last) && end == s.WordOf(m.last).end)
        || (IsZipText(s.tables, s.Text(m.last + 1), m.index) && end == s.WordOf(m.last + 1).end))
  }

  /** No state begins at a word where it would be looked for. */
  ghost predicate NoStateYet(s: Source, l: nat)
    requires s.Valid()
  {
    l <= 3 || LocationStands(s, l) || forall m :: !StateStands(s, l, m)
  }

  /** A plain address: no other number and no other state comes before its state, and it has a ZIP code. */
  ghost predicate IsPlainText(s: Source, k: nat, m: StateMatch)
    requires s.Valid()
  {
    && IsAddressText(s, k, m, s.WordOf(m.last + 1).end) && IsZipText(s.tables, s.Text(m.last + 1), m.index)
    && !LocationStands(s, k)
    && NothingStandsBefore(s, k)
  }

  ghost predicate NothingStandsBefore(s: Source, k: nat)
    requires s.Valid()
  {
    (forall l | 1 <= l <= k :: !NumberStands(s, l)) && (forall l | 1 <= l < k :: NoStateYet(s, l))
  }

  lemma {:induction false} NoWordBehindIff(text: String16, delimiters: Delimiters, at: nat)
    requires at <= |text|
    ensures NextWord(text, delimiters, at).None? <==> forall i | at <= i < |text| :: text[i] in delimiters
    decreases |text| - at
  {
    if at < |text| {
      NoWordBehindIff(text, delimiters, at + 1);
    }
  }

  lemma EitherCaseMeans(word: seq<Code>, name: seq<Code>)
    ensures IsInEitherCase(word, name) <==> Lower(word) == name
  {
    if Lower(word) == name {
      assert forall i | 0 <= i < |word| :: Lower(word)[i] == name[i];
    }
  }

  lemma PlaceNameMeans(word: seq<Code>, entry: LocationName)
    requires word != []
    ensures MatchesLocation(word, entry) <==> IsPlaceName(word, entry)
  {
    EitherCaseMeans(word, entry.name);
    EitherCaseMeans(word[..|word| - 1], entry.name);
    if |word| == |entry.name| + 1 {
      assert word[..|entry.name|] == word[..|word| - 1];
    }
  }

  lemma LocationMeans(t: Tables, word: seq<Code>)
    ensures IsLocation(t, word) <==> IsLocationText(t, word)
  {
    if word != [] && IsAsciiAlpha(word[0]) && ToLowerASCII(word[0]) in t.locationNames {
      var names := t.locationNames[ToLowerASCII(word[0])];
      forall i | 0 <= i < |names| ensures MatchesLocation(word, names[i]) <==> IsPlaceName(word, names[i]) {
        PlaceNameMeans(word, names[i]);
      }
    }
  }

  lemma LocationStandsIff(s: Source, k: nat)
    requires s.Valid()
    ensures LocationAt(s, k) <==> LocationStands(s, k)
  {
    LocationMeans(s.tables, s.Text(k));
  }

  lemma {:induction false} NextWordIsFirst(text: String16, delimiters: Delimiters, at: nat)
    requires at <= |text|
    ensures var word := NextWord(text, delimiters, at);
      && (word.Some? ==> (forall i | at <= i < word.value.begin :: text[i] in delimiters)
                         && (word.value.end < |text| ==> text[word.value.end] in delimiters))
      && (word.None? ==> forall i | at <= i < |text| :: text[i] in delimiters)
    decreases |text| - at
  {
    if at < |text| && text[at] in delimiters {
      NextWordIsFirst(text, delimiters, at + 1);
    }
  }

  /**
   The words are the stretches between separators: each is free of them, ends at one or with the text, and only
   separators lie between it and the word before; behind the last there are only separators, and all further words are empty.
   */
  lemma WordsSplitText(s: Source, k: nat)
    requires s.Valid() && k > 0
    ensures var before, word := s.WordOf(k - 1), s.WordOf(k);
      && before.end <= word.begin <= word.end <= |s.text|
      && (forall i | before.end <= i < word.begin :: SeparatesWords(s.tables, s.text[i]))
      && (forall i | word.begin <= i < word.end :: !SeparatesWords(s.tables, s.text[i]))
      && (word.end < |s.text| ==> SeparatesWords(s.tables, s.text[word.end]))
      && (word.begin == word.end <==> NothingBehind(s, k - 1))
  {
    var delimiters, at := Delims(s.tables), s.WordOf(k - 1).end;
    NextWordIsFirst(s.text, delimiters, at);
    assert forall c :: c in delimiters <==> SeparatesWords(s.tables, c);
    assert s.WordOf(k) == WordAfter(s.text, delimiters, s.WordOf(k - 1));
    if s.WordOf(k).begin < s.WordOf(k).end {
      assert !SeparatesWords(s.tables, s.text[s.WordOf(k).begin]);
    }
  }

  lemma ZipMeans(s: Source, k: nat, state: nat)
    requires s.Valid()
    ensures ZipAt(s, k, state) <==> IsZipText(s.tables, s.Text(k), state)
  {
  }

  lemma EtAlMeans(s: Source, k: nat)
    requires s.Valid() && k > 0
    ensures EtAl(s, k) <==> AreLetters(s.Text(k - 1), 'e', 't') && AreLetters(s.Text(k), 'a', 'l')
  {
    LowerIs(s.Text(k - 1), 'e', 't');
    LowerIs(s.Text(k), 'a', 'l');
  }

  lemma LowerIs(word: seq<Code>, first: char, second: char)
    requires 'a' <= first <= 'z' && 'a' <= second <= 'z'
    ensures Lower(word) == [first as int, second as int] <==> AreLetters(word, first, second)
  {
    assert |word| == 2 ==> Lower(word)[0] == ToLowerASCII(word[0]) && Lower(word)[1] == ToLowerASCII(word[1]);
    if AreLetters(word, first, second) {
      assert Lower(word) == [first as int, second as int];
    }
  }

  lemma EndMeans(s: Source, last: nat)
    requires s.Valid()
    ensures EndsText(s, last) <==> NothingBehind(s, last)
  {
    NoWordBehindIff(s.text, Delims(s.tables), s.WordOf(last).end);
  }

  lemma StreetMeans(s: Source, k: nat)
    requires s.Valid()
    ensures (exists l | 1 <= l < k :: LocationAt(s, l)) <==> (exists l | 1 <= l < k :: LocationStands(s, l))
    ensures (forall l | 1 <= l <= k :: ShortWord(s, l)) <==> (forall l | 1 <= l <= k :: |s.Text(l)| <= 25)
  {
    forall l ensures LocationAt(s, l) <==> LocationStands(s, l) {
      LocationStandsIff(s, l);
    }
    assert forall l :: ShortWord(s, l) <==> |s.Text(l)| <= 25;
  }

  /** The finder's addresses are those. */
  lemma AddressMeans(s: Source, k: nat, m: StateMatch, end: nat)
    requires s.Valid() && WellFormedTables(s.tables)
    ensures IsAddress(s, k, m, end) <==> IsAddressText(s, k, m, end)
  {
    if k > 0 {
      StateIsFoundIff(s, k, m);
      EtAlMeans(s, k);
      EndMeans(s, m.last);
      ZipMeans(s, m.last + 1, m.index);
      if StateAt(s, k) == Some(m) {
        MatchesSpell(s, k);
      }
      StreetMeans(s, k);
    }
  }

  lemma PassedOverMeans(s: Source, l: nat)
    requires s.Valid() && l > 0 && WellFormedTables(s.tables)
    ensures IsPassedOver(s, l) <==> NoStateYet(s, l)
    ensures HasNumber(s, l) <==> NumberStands(s, l)
  {
    LocationStandsIff(s, l);
    HasRunIff(s.text, s.tables.whitespace, s.WordOf(l).begin, s.WordOf(l).end);
    forall m ensures StateAt(s, l) == Some(m) <==> StateStands(s, l, m) {
      StateIsFoundIff(s, l, m);
    }
    if StateAt(s, l).Some? {
      assert StateStands(s, l, StateAt(s, l).value);
    }
  }

  lemma NothingElseMeans(s: Source, k: nat)
    requires s.Valid() && WellFormedTables(s.tables)
    ensures NothingElseBefore(s, k) <==> (forall l | 1 <= l <= k :: ShortWord(s, l)) && NothingStandsBefore(s, k)
  {
    forall l | 1 <= l <= k ensures IsPassedOver(s, l) <==> NoStateYet(s, l) ensures HasNumber(s, l) <==> NumberStands(s, l) {
      PassedOverMeans(s, l);
    }
    if NothingElseBefore(s, k) {
      forall l | 1 <= l <= k ensures ShortWord(s, l) && !NumberStands(s, l) {
        assert IsOrdinary(s, l);
      }
    }
  }

  /** An address is plain when it has a ZIP code and nothing else stands before its state. */
  lemma PlainIff(s: Source, k: nat, m: StateMatch)
    requires s.Valid() && WellFormedTables(s.tables)
    ensures IsPlainAddress(s, k, m) <==>
      IsAddress(s, k, m, s.WordOf(m.last + 1).end) && ZipAt(s, m.last + 1, m.index) && !LocationAt(s, k) && NothingStandsBefore(s, k)
  {
    NothingElseMeans(s, k);
    if IsPlainAddress(s, k, m) {
      PlainAddressIsAddress(s, k, m);
    }
  }

  /** And so are its plain addresses. */
  lemma PlainMeans(s: Source, k: nat, m: StateMatch)
    requires s.Valid() && WellFormedTables(s.tables)
    ensures IsPlainAddress(s, k, m) <==> IsPlainText(s, k, m)
  {
    PlainIff(s, k, m);
    AddressMeans(s, k, m, s.WordOf(m.last + 1).end);
    ZipMeans(s, m.last + 1, m.index);
    LocationStandsIff(s, k);
  }
}
