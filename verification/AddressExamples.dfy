/**
 Two texts on which looking ahead for a state has consequences: in the first the loop comes to an empty
 word, in the second an address is found whose state is on the sixth line.
 */
module AddressExamples {
  import opened AddressText
  import opened Options
  import opened HouseNumbers
  import opened HouseNumberGrammar
  import opened AddressWords
  import opened StateNames
  import opened Addresses
  import opened AddressFinder

  /** "1 a b c new": a number, three words, and the beginning of the name of a state. */
  const CUT_OFF: String16 := [0x31, SPACE, 0x61, SPACE, 0x62, SPACE, 0x63, SPACE, 0x6E, 0x65, 0x77]

  const NEW_YORK: StateName := StateName([0x6E, 0x65, 0x77, SPACE, 0x79, 0x6F, 0x72, 0x6B], 3, 8, 0)

  /** Tables with one state, by its code and by its name, and one location name. */
  const ONE_STATE: Tables := Tables(
    map[(0x6E, 0x79) := 0], map[0x6E := [NEW_YORK]], map[0x73 := [LocationName([0x73, 0x74], 2, false)]], [ZipRange(10, 14, 0, 6)], {SPACE})

  const CUT_OFF_SOURCE: Source := Source(CUT_OFF, ONE_STATE, Word(0, 1))

  lemma OneStateIsWellFormed()
    ensures WellFormedTables(ONE_STATE) && CUT_OFF_SOURCE.Valid()
  {
    var name := NEW_YORK.name;
    assert WellFormedName(NEW_YORK) by {
      assert forall k: nat :: SpaceAt(name, k) <==> k == 3;
    }
  }

  lemma CutOffNumber()
    ensures IsFirstRun(CUT_OFF, ONE_STATE.whitespace, 0, |CUT_OFF|, Word(0, 1))
  {
    assert RunFrom(CUT_OFF, {SPACE}, 0, 11, 1, 1, 1) == Some(1);
    assert Growth(CUT_OFF, {SPACE}, 0, 11, 0, 0, 0) == 1;
  }

  lemma CutOffNext()
    ensures var d := Delims(ONE_STATE);
      && NextWord(CUT_OFF, d, 1) == Some(Word(2, 3)) && NextWord(CUT_OFF, d, 3) == Some(Word(4, 5))
      && NextWord(CUT_OFF, d, 5) == Some(Word(6, 7)) && NextWord(CUT_OFF, d, 7) == Some(Word(8, 11))
      && NextWord(CUT_OFF, d, 11) == None
  {
    var d := Delims(ONE_STATE);
    assert forall at: nat | at <= 10 :: CUT_OFF[at] in d <==> CUT_OFF[at] == SPACE;
    assert WordEnd(CUT_OFF, d, 3) == 3 && WordEnd(CUT_OFF, d, 5) == 5 && WordEnd(CUT_OFF, d, 7) == 7;
    assert NextWord(CUT_OFF, d, 2) == Some(Word(2, 3)) && NextWord(CUT_OFF, d, 4) == Some(Word(4, 5));
    assert NextWord(CUT_OFF, d, 6) == Some(Word(6, 7));
    assert WordEnd(CUT_OFF, d, 11) == 11 && WordEnd(CUT_OFF, d, 10) == 11 && WordEnd(CUT_OFF, d, 9) == 11;
    assert NextWord(CUT_OFF, d, 8) == Some(Word(8, 11));
  }

  /** The words, and the empty one behind them. */
  function CutOffWord(n: nat): Word {
    if n < 4 then Word(2 * n, 2 * n + 1) else if n == 4 then Word(8, 11) else Word(11, 11)
  }

  lemma CutOffWords(n: nat)
    requires n <= 5
    ensures CUT_OFF_SOURCE.WordOf(n) == CutOffWord(n)
  {
    CutOffNext();
    if n > 0 {
      CutOffWords(n - 1);
    }
  }

  /** Letters other than "o" do not start a number. */
  lemma NoStartNoNumber(text: String16, whitespace: set<Code>, begin: nat, end: nat)
    requires begin <= end <= |text| && forall i | begin <= i < end :: IsAsciiAlpha(text[i]) && !IsNumberStart(text[i])
    ensures !HasRun(text, whitespace, begin, end)
  {
    forall start | begin <= start <= end && IsStart(text, whitespace, begin, start)
      ensures RunAt(text, whitespace, begin, end, start).None?
    {
      assert start < end ==> Growth(text, whitespace, begin, end, start, 0, 0) == 0;
    }
  }

  lemma CutOffHasNoNumber(n: nat)
    requires 0 < n <= 5
    ensures !HasNumber(CUT_OFF_SOURCE, n)
  {
    CutOffWords(n);
    NoStartNoNumber(CUT_OFF, {SPACE}, CutOffWord(n).begin, CutOffWord(n).end);
  }

  /** At the last word a state is looked up: none is found, and the lookup reads on to the empty word. */
  lemma CutOffLookup()
    ensures StateAt(CUT_OFF_SOURCE, 4) == None && StateReads(CUT_OFF_SOURCE, 4) == 5
    ensures EndsText(CUT_OFF_SOURCE, 4) && CUT_OFF_SOURCE.WordOf(5).Length() == 0
  {
    var s := CUT_OFF_SOURCE;
    CutOffWords(4);
    CutOffWords(5);
    CutOffNext();
    assert s.Text(4) == [0x6E, 0x65, 0x77] && s.Text(5) == [];
    assert IsNamePart(s.Text(4), NEW_YORK.name, 0) && !IsNamePart(s.Text(5), NEW_YORK.name, 4);
    assert NameEnd(s, NEW_YORK, 5, 4) == None && NameReads(s, NEW_YORK, 5, 4) == 5;
    assert NameEnd(s, NEW_YORK, 4, 0) == None && NameReads(s, NEW_YORK, 4, 0) == 5;
    assert FirstName(s, [NEW_YORK], 4) == FirstName(s, [NEW_YORK][1..], 4) == None;
    assert NamesRead(s, [NEW_YORK], 4) == Max(5, NamesRead(s, [NEW_YORK][1..], 4)) == 5;
  }

  lemma {:induction false} CutOffHasOneLine(from: nat, limit: nat)
    requires from <= limit <= |CUT_OFF|
    ensures CountIn(CUT_OFF, NEWLINE_DELIMITERS * Delims(ONE_STATE), from, limit) == 0
    decreases limit
  {
    if from < limit {
      CutOffHasOneLine(from, limit - 1);
    }
  }

  /** Each word is passed over, and there is room for it. */
  lemma CutOffIsPassedOver(n: nat)
    requires 0 < n <= 4
    ensures 0 < CUT_OFF_SOURCE.WordOf(n).Length() <= MAX_NAME_WORD_LENGTH && Gap(CUT_OFF_SOURCE, n) == 0
    ensures IsPassedOver(CUT_OFF_SOURCE, n) && !LocationAt(CUT_OFF_SOURCE, n)
    ensures LooksUp(CUT_OFF_SOURCE, n) <==> n == 4
  {
    CutOffWords(n);
    CutOffWords(n - 1);
    CutOffHasOneLine(CutOffWord(n - 1).end, CutOffWord(n).begin);
    CutOffHasNoNumber(n);
    CutOffLookup();
  }

  /** One turn of the loop, at a word that is passed over. */
  method PassOver(pass: AddressPass)
    requires pass.Ready(pass.nextWord) && pass.nextWord <= MAX_ADDRESS_WORDS && Fits(pass.source, pass.Come())
    requires IsPassedOver(pass.source, pass.nextWord)
    requires !HasNumber(pass.source, pass.nextWord) && !LocationAt(pass.source, pass.nextWord)
    modifies pass, pass.tokenizer, pass.parser
    ensures pass.nextWord == old(pass.nextWord) + 1 && pass.Ready(pass.nextWord)
    ensures pass.numLines <= old(pass.numLines) + Gap(pass.source, old(pass.nextWord))
    ensures LooksUp(pass.source, old(pass.nextWord)) ==> pass.lookups == old(pass.lookups) + [old(pass.nextWord)]
  {
    var turn := pass.Advance();
    turn := pass.Judge();
    pass.nextWord := pass.nextWord + 1;
  }

  /** The loop over this text's words, up to the last. */
  method PassOverAll() returns (pass: AddressPass)
    ensures fresh(pass) && fresh(pass.tokenizer) && pass.source == CUT_OFF_SOURCE
    ensures pass.nextWord == 5 && pass.Ready(5) && 4 in pass.lookups
  {
    OneStateIsWellFormed();
    var parser := new HouseNumberParser(CUT_OFF, ONE_STATE.whitespace);
    var number := parser.Parse(0, |CUT_OFF|);
    CutOffNumber();
    FirstRunIsUnique(CUT_OFF, ONE_STATE.whitespace, 0, number.value, Word(0, 1));
    pass := new AddressPass(CUT_OFF, ONE_STATE, number.value, parser);
    while pass.nextWord < 5
      invariant pass.source == CUT_OFF_SOURCE && 1 <= pass.nextWord <= 5 && pass.Ready(pass.nextWord) && pass.numLines <= 1
      invariant fresh(pass) && fresh(pass.tokenizer) && fresh(pass.parser)
      invariant pass.nextWord == 5 ==> 4 in pass.lookups
      decreases 5 - pass.nextWord
    {
      CutOffIsPassedOver(pass.nextWord);
      CutOffHasNoNumber(pass.nextWord);
      PassOver(pass);
    }
  }

  /** And then it comes to an empty word. */
  method MeetEmptyWord() returns (pass: AddressPass)
    ensures pass.source == CUT_OFF_SOURCE && pass.nextWord == 5
    ensures pass.nextWord < |pass.words| && pass.words[pass.nextWord].Length() == 0
  {
    pass := PassOverAll();
    CutOffLookup();
    ghost var i :| 0 <= i < |pass.lookups| && pass.lookups[i] == 4;
    assert ReadTo(CUT_OFF_SOURCE, pass.lookups, 5);
    var turn := pass.Prepare();
  }

  // ----- A state on the sixth line -----

  /** "1 st a b new", five line breaks, "ny 10000": looking up "new york" at "new" reads on to "ny". */
  const FAR_DOWN: String16 := [0x31, SPACE, 0x73, 0x74, SPACE, 0x61, SPACE, 0x62, SPACE, 0x6E, 0x65, 0x77,
    0x0A, 0x0A, 0x0A, 0x0A, 0x0A, 0x6E, 0x79, SPACE, 0x31, 0x30, 0x30, 0x30, 0x30]

  const FAR_DOWN_SOURCE: Source := Source(FAR_DOWN, ONE_STATE, Word(0, 1))

  const FAR_DOWN_WORDS: seq<Word> := [Word(0, 1), Word(2, 4), Word(5, 6), Word(7, 8), Word(9, 12), Word(17, 19), Word(20, 25)]

  predicate BetweenWords(i: nat) {
    i == 1 || i == 4 || i == 6 || i == 8 || 12 <= i <= 16 || i == 19
  }

  lemma FarDownDelimiters()
    ensures forall i: nat | i < |FAR_DOWN| :: FAR_DOWN[i] in Delims(ONE_STATE) <==> BetweenWords(i)
  {
  }

  lemma {:induction false} NextWordAt(text: String16, d: Delimiters, at: nat, word: Word)
    requires at <= word.begin < word.end <= |text| && (word.end < |text| ==> text[word.end] in d)
    requires forall i | at <= i < word.begin :: text[i] in d
    requires forall i | word.begin <= i < word.end :: text[i] !in d
    ensures NextWord(text, d, at) == Some(word)
    decreases word.begin - at
  {
    if at < word.begin {
      NextWordAt(text, d, at + 1, word);
    }
  }

  lemma FarDownWords(n: nat)
    requires n < |FAR_DOWN_WORDS|
    ensures FAR_DOWN_SOURCE.WordOf(n) == FAR_DOWN_WORDS[n]
  {
    if n > 0 {
      FarDownWords(n - 1);
      FarDownDelimiters();
      NextWordAt(FAR_DOWN, Delims(ONE_STATE), FAR_DOWN_WORDS[n - 1].end, FAR_DOWN_WORDS[n]);
    }
  }

  lemma FarDownNumber()
    ensures IsFirstRun(FAR_DOWN, ONE_STATE.whitespace, 0, |FAR_DOWN|, Word(0, 1))
  {
    assert RunFrom(FAR_DOWN, {SPACE}, 0, 25, 1, 1, 1) == Some(1);
    assert Growth(FAR_DOWN, {SPACE}, 0, 25, 0, 0, 0) == 1;
  }

  lemma FarDownLetters()
    ensures forall i | 2 <= i < 19 && !BetweenWords(i) :: IsAsciiAlpha(FAR_DOWN[i]) && !IsNumberStart(FAR_DOWN[i])
  {
  }

  lemma FarDownIsOrdinary(n: nat)
    requires 0 < n <= 5
    ensures IsOrdinary(FAR_DOWN_SOURCE, n)
  {
    FarDownWords(n);
    FarDownLetters();
    NoStartNoNumber(FAR_DOWN, {SPACE}, FAR_DOWN_WORDS[n].begin, FAR_DOWN_WORDS[n].end);
  }

  lemma FarDownTexts()
    ensures FAR_DOWN_SOURCE.Text(4) == [0x6E, 0x65, 0x77] && FAR_DOWN_SOURCE.Text(5) == [0x6E, 0x79]
  {
    FarDownWords(4);
    FarDownWords(5);
    assert FAR_DOWN[9] == 0x6E && FAR_DOWN[10] == 0x65 && FAR_DOWN[11] == 0x77;
    assert FAR_DOWN[17] == 0x6E && FAR_DOWN[18] == 0x79;
  }

  /** The first lookup finds nothing and reads on to the sixth word. */
  lemma FarDownFirstLookup()
    ensures StateAt(FAR_DOWN_SOURCE, 4) == None && StateReads(FAR_DOWN_SOURCE, 4) == 5
  {
    var s := FAR_DOWN_SOURCE;
    FarDownTexts();
    assert IsNamePart(s.Text(4), NEW_YORK.name, 0);
    assert !IsNamePart(s.Text(5), NEW_YORK.name, 4) by {
      assert Lower(s.Text(5))[0] == 0x6E && NEW_YORK.name[4..6][0] == 0x79;
    }
    assert NameEnd(s, NEW_YORK, 5, 4) == None && NameReads(s, NEW_YORK, 5, 4) == 5;
    assert NameEnd(s, NEW_YORK, 4, 0) == None && NameReads(s, NEW_YORK, 4, 0) == 5;
    assert FirstName(s, [NEW_YORK], 4) == FirstName(s, [NEW_YORK][1..], 4) == None;
    assert NamesRead(s, [NEW_YORK], 4) == Max(5, NamesRead(s, [NEW_YORK][1..], 4)) == 5;
  }

  /** The second finds the state there. */
  lemma FarDownSecondLookup()
    ensures StateAt(FAR_DOWN_SOURCE, 5) == Some(StateMatch(5, 0))
  {
    FarDownTexts();
  }

  predicate BreaksLine(c: Code) {
    c in NEWLINE_DELIMITERS * Delims(ONE_STATE)
  }

  lemma {:induction false} AllOrNone(from: nat, limit: nat, all: bool)
    requires from <= limit <= |FAR_DOWN| && forall i | from <= i < limit :: BreaksLine(FAR_DOWN[i]) <==> all
    ensures CountIn(FAR_DOWN, NEWLINE_DELIMITERS * Delims(ONE_STATE), from, limit) == if all then limit - from else 0
    decreases limit
  {
    if from < limit {
      AllOrNone(from, limit - 1, all);
    }
  }

  lemma FarDownBreaks()
    ensures forall i: nat | i < |FAR_DOWN| :: BreaksLine(FAR_DOWN[i]) <==> 12 <= i < 17
  {
  }

  /** There are six lines, of which one is seen. */
  lemma FarDownLines()
    ensures Lines(FAR_DOWN_SOURCE, 5) == 6 && SeenLines(FAR_DOWN_SOURCE, 5) == 1
  {
    var s, kind := FAR_DOWN_SOURCE, NEWLINE_DELIMITERS * Delims(ONE_STATE);
    FarDownFirstLookup();
    assert ReadAheadFrom(s, 4, 5);
    assert 5 in WordsAhead(s);
    FarDownWords(4);
    FarDownWords(5);
    FarDownBreaks();
    AllOrNone(1, 9, false);
    AllOrNone(1, 12, false);
    AllOrNone(12, 17, true);
    CountInSplits(FAR_DOWN, kind, 1, 12, 17);
    LinesAreSeenIff(s, 4);
    LinesGrow(Gaps(s), WordsAhead(s), 0, 4);
  }

  lemma FarDownStreet()
    ensures LocationAt(FAR_DOWN_SOURCE, 1)
  {
    FarDownWords(1);
    var word := FAR_DOWN_SOURCE.Text(1);
    assert FAR_DOWN[2] == 0x73 && FAR_DOWN[3] == 0x74;
    assert word == [0x73, 0x74];
    assert Lower(word) == [0x73, 0x74];
    assert MatchesLocation(word, ONE_STATE.locationNames[0x73][0]);
  }

  lemma FarDownIsNotEtAl()
    ensures !EtAl(FAR_DOWN_SOURCE, 5)
  {
    FarDownTexts();
    assert |Lower(FAR_DOWN_SOURCE.Text(4))| == 3;
  }

  lemma FarDownZip()
    ensures ZipAt(FAR_DOWN_SOURCE, 6, 0)
  {
    FarDownWords(6);
    assert FAR_DOWN[20] == 0x31;
    assert forall i | 21 <= i < 25 :: FAR_DOWN[i] == 0x30;
    assert FAR_DOWN_SOURCE.Text(6) == [0x31, 0x30, 0x30, 0x30, 0x30];
  }

  lemma FarDownComesFirst()
    ensures NothingElseBefore(FAR_DOWN_SOURCE, 5)
  {
    forall l | 1 <= l <= 5 ensures IsOrdinary(FAR_DOWN_SOURCE, l) {
      FarDownIsOrdinary(l);
    }
    forall l | 1 <= l < 5 ensures IsPassedOver(FAR_DOWN_SOURCE, l) {
      FarDownIsPassedOver(l);
    }
  }

  lemma FarDownIsPassedOver(n: nat)
    requires 1 <= n < 5
    ensures IsPassedOver(FAR_DOWN_SOURCE, n)
  {
    if n == 4 {
      FarDownFirstLookup();
    }
  }

  lemma FarDownIsPlain()
    ensures IsPlainAddress(FAR_DOWN_SOURCE, 5, StateMatch(5, 0))
  {
    FarDownComesFirst();
    FarDownSecondLookup();
    FarDownLines();
    FarDownStreet();
    FarDownIsNotEtAl();
    FarDownZip();
  }

  /** An address is found whose state is on the sixth line. */
  method FindFarDown() returns (address: Option<Word>)
    ensures address == Some(Word(0, |FAR_DOWN|)) && Lines(FAR_DOWN_SOURCE, 5) > MAX_ADDRESS_LINES
  {
    OneStateIsWellFormed();
    FarDownNumber();
    FarDownIsPlain();
    FarDownLines();
    FarDownWords(6);
    FoundIsLeftmostNumeral(FAR_DOWN, ONE_STATE.whitespace, 0, |FAR_DOWN|, Word(0, 1));
    PlainMeans(FAR_DOWN_SOURCE, 5, StateMatch(5, 0));
    address := FindAddress(FAR_DOWN, ONE_STATE);
    assert PlainStandsFirst(FAR_DOWN, ONE_STATE, Word(0, 1), 5, StateMatch(5, 0));
  }
}
