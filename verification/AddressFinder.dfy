/**
 Finding a US postal address in a text: a house number, a street with a location name, a state
 and, unless the text ends there, a ZIP code valid for the state.
 */
module AddressFinder {
  import opened AddressText
  import opened Options
  import opened HouseNumbers
  import opened HouseNumberGrammar
  import opened AddressWords
  import opened StateNames
  import opened Addresses

  // ----- Where a scan may begin -----

  /** The first word is the leftmost house number from some position on where a scan may begin. */
  ghost predicate StartsWithNumber(s: Source, from: nat) {
    CanResume(s.text, s.tables, from) && IsLeftmostNumeral(s.text, s.tables.whitespace, from, |s.text|, s.first)
  }

  predicate IsNumberStart(c: Code) {
    IsAsciiDigit(c) || ToLowerASCII(c) == 0x6F
  }

  /** Where a scan may begin: no number starts there unless a delimiter or nothing comes before it. */
  predicate CanResume(text: String16, tables: Tables, at: nat) {
    at <= |text| && (at == 0 || at == |text| || text[at - 1] in Delims(tables) || !IsNumberStart(text[at]))
  }

  lemma NumberHasLeftBoundary(s: Source, from: nat)
    requires s.Valid() && WellFormedTables(s.tables) && StartsWithNumber(s, from)
    ensures IsLeftBoundary(s.text, s.tables, s.first.begin)
  {
    FoundIsLeftmostNumeral(s.text, s.tables.whitespace, from, |s.text|, s.first);
    FoundNumberShape(s.text, s.tables.whitespace, from, |s.text|, s.first);
  }

  /** A found address is a stretch of the text. */
  lemma AddressIsAStretch(s: Source, from: nat, k: nat, m: StateMatch, end: nat)
    requires s.Valid() && WellFormedTables(s.tables) && StartsWithNumber(s, from) && IsAddressText(s, k, m, end)
    ensures from <= s.first.begin < s.first.end <= end <= |s.text|
  {
    WordsAscend(s.text, Delims(s.tables), s.first, 0, m.last);
    WordsAscend(s.text, Delims(s.tables), s.first, 0, m.last + 1);
  }

  lemma EndOfTextCloses(s: Source, m: StateMatch)
    requires s.Valid() && EndsText(s, m.last)
    ensures Closes(s, m, s.WordOf(m.last).end) && !ZipAt(s, m.last + 1, m.index)
  {
    assert s.Text(m.last + 1) == [];
  }

  // ----- Lookups that read past the end of the text -----

  /** One of the lookups read as far as word `n`. */
  ghost predicate ReadTo(s: Source, lookups: seq<nat>, n: nat)
    requires s.Valid()
  {
    exists i :: 0 <= i < |lookups| && StateReads(s, lookups[i]) == n
  }

  /** The list is as long as the lookups need, and an empty word is in it only because one of them read that far. */
  ghost predicate Recorded(s: Source, length: nat, lookups: seq<nat>)
    requires s.Valid()
  {
    && (forall i | 0 <= i < |lookups| :: StateReads(s, lookups[i]) < length)
    && (forall n | 0 < n < length && s.WordOf(n).Length() == 0 :: ReadTo(s, lookups, n))
  }

  lemma RecordedAfterLookup(s: Source, length: nat, lookups: seq<nat>, k: nat)
    requires s.Valid() && WellFormedTables(s.tables) && Recorded(s, length, lookups) && 0 < k < length
    ensures Recorded(s, Max(length, StateReads(s, k) + 1), lookups + [k])
  {
    var longer := lookups + [k];
    assert longer[|lookups|] == k;
    forall n | 0 < n < Max(length, StateReads(s, k) + 1) && s.WordOf(n).Length() == 0 ensures ReadTo(s, longer, n) {
      if n < length {
        var i :| 0 <= i < |lookups| && StateReads(s, lookups[i]) == n;
        assert longer[i] == lookups[i];
      } else {
        StateStopsAtEmpty(s, k, n);
      }
    }
  }

  lemma RecordedAfterWord(s: Source, length: nat, lookups: seq<nat>)
    requires s.Valid() && Recorded(s, length, lookups) && s.WordOf(length).Length() > 0
    ensures Recorded(s, length + 1, lookups)
  {
  }

  /** A lookup read past the text's last word, to the empty word `n`. */
  ghost predicate ReadPastEnd(s: Source, lookups: seq<nat>, n: nat)
    requires s.Valid()
  {
    n > 0 && ReadTo(s, lookups, n) && EndsText(s, n - 1)
  }

  // ----- The count of lines -----

  /** No line is missing in the count but those a lookup reads ahead. */
  ghost predicate LinesRecorded(s: Source, ahead: iset<nat>, length: nat, lines: nat)
    requires s.Valid()
  {
    length > 0 && LinesBut(Gaps(s), ahead, length - 1) <= lines <= MAX_ADDRESS_LINES
  }

  /** The list has become longer for a lookup at word `n` only. */
  ghost predicate LongerByLookup(s: Source, n: nat, length: nat, longer: nat)
    requires s.Valid()
  {
    longer == length || (length < longer <= ReadsTo(s, n) + 1 && MIN_ADDRESS_WORDS < n && !LocationAt(s, n))
  }

  /** What a lookup adds to the list adds no lines. */
  lemma LookupSeesNoLines(s: Source, ahead: iset<nat>, n: nat, length: nat, longer: nat)
    requires s.Valid() && AreAhead(s, ahead) && n < length && LongerByLookup(s, n, length, longer)
    ensures LinesBut(Gaps(s), ahead, longer - 1) == LinesBut(Gaps(s), ahead, length - 1)
  {
    forall k | length <= k < longer ensures k in ahead {
      assert ReadAheadFrom(s, n, k);
      assert ReadAhead(s, k);
    }
    SkippedAddNoLines(Gaps(s), ahead, length, longer);
  }

  lemma LinesAfterLookup(s: Source, ahead: iset<nat>, n: nat, length: nat, longer: nat, lines: nat)
    requires s.Valid() && AreAhead(s, ahead) && n < length
    requires LongerByLookup(s, n, length, longer) && LinesRecorded(s, ahead, length, lines)
    ensures LinesRecorded(s, ahead, longer, lines)
  {
    LookupSeesNoLines(s, ahead, n, length, longer);
  }

  lemma FewLinesBefore(s: Source, ahead: iset<nat>, n: nat, length: nat, lines: nat)
    requires s.Valid() && n < length && LinesRecorded(s, ahead, length, lines)
    ensures LinesBut(Gaps(s), ahead, n) <= MAX_ADDRESS_LINES
  {
    LinesGrow(Gaps(s), ahead, n, length - 1);
  }

  lemma {:induction false} SkippedAddNoLines(gaps: nat -> nat, skipped: iset<nat>, length: nat, longer: nat)
    requires 0 < length <= longer && forall n | length <= n < longer :: n in skipped
    ensures LinesBut(gaps, skipped, longer - 1) == LinesBut(gaps, skipped, length - 1)
    decreases longer
  {
    if length < longer {
      SkippedAddNoLines(gaps, skipped, length, longer - 1);
    }
  }

  lemma LinesAfterWord(s: Source, ahead: iset<nat>, length: nat, lines: nat)
    requires s.Valid() && LinesRecorded(s, ahead, length, lines) && lines + Gap(s, length) <= MAX_ADDRESS_LINES
    ensures LinesRecorded(s, ahead, length + 1, lines + Gap(s, length))
  {
    MoreLinesByGap(s, ahead, length);
  }

  lemma MoreLinesByGap(s: Source, skipped: iset<nat>, n: nat)
    requires s.Valid() && n > 0
    ensures LinesBut(Gaps(s), skipped, n) <= LinesBut(Gaps(s), skipped, n - 1) + Gap(s, n)
    ensures n !in skipped ==> LinesBut(Gaps(s), skipped, n) == LinesBut(Gaps(s), skipped, n - 1) + Gap(s, n)
  {
  }

  lemma {:induction false} LinesGrow(gaps: nat -> nat, skipped: iset<nat>, n: nat, k: nat)
    requires n <= k
    ensures LinesBut(gaps, skipped, n) <= LinesBut(gaps, skipped, k)
    decreases k
  {
    if n < k {
      LinesGrow(gaps, skipped, n, k - 1);
    }
  }

  lemma {:induction false} SameWordsSameLines(gaps: nat -> nat, skipped: iset<nat>, other: iset<nat>, k: nat)
    requires forall n: nat | n <= k :: n in skipped <==> n in other
    ensures LinesBut(gaps, skipped, k) == LinesBut(gaps, other, k)
  {
    if k > 0 {
      SameWordsSameLines(gaps, skipped, other, k - 1);
    }
  }

  lemma SeenLinesAre(s: Source, ahead: iset<nat>, k: nat)
    requires s.Valid() && AreAhead(s, ahead)
    ensures SeenLines(s, k) == LinesBut(Gaps(s), ahead, k)
  {
    var words := WordsAhead(s);
    assert forall n: nat :: n in words <==> n in ahead by {
      forall n: nat ensures n in words <==> n in ahead {
        assert n in words <==> ReadAhead(s, n);
      }
    }
    SameWordsSameLines(Gaps(s), words, ahead, k);
  }

  lemma EmptyMeansEnd(s: Source, n: nat)
    requires s.Valid() && n > 0
    ensures s.WordOf(n).Length() == 0 <==> EndsText(s, n - 1)
  {
  }

  // ----- One pass, from a house number -----

  ghost predicate Accepted(s: Source, k: nat, foundLocation: bool)
    requires s.Valid()
  {
    && (forall l | 1 <= l < k :: ShortWord(s, l))
    && (foundLocation ==> exists l | 1 <= l < k :: LocationAt(s, l))
  }

  /** No location name was missed. */
  ghost predicate NoneMissed(s: Source, k: nat, foundLocation: bool)
    requires s.Valid()
  {
    foundLocation || forall l | 1 <= l < k :: !LocationAt(s, l)
  }

  predicate StateCloses(s: Source, k: nat, end: nat)
    requires s.Valid() && k > 0
  {
    StateAt(s, k).Some? && !EtAl(s, k) && Closes(s, StateAt(s, k).value, end)
  }

  predicate StateAndZip(s: Source, k: nat, end: nat)
    requires s.Valid() && k > 0
  {
    && StateAt(s, k).Some? && !EtAl(s, k)
    && var m := StateAt(s, k).value;
       ZipAt(s, m.last + 1, m.index) && end == s.WordOf(m.last + 1).end
  }

  /** A word at which a state is looked up. */
  ghost predicate LooksUp(s: Source, k: nat)
    requires s.Valid()
  {
    k > MIN_ADDRESS_WORDS && !HasNumber(s, k) && !LocationAt(s, k)
  }

  ghost predicate AreWordsOf(s: Source, words: seq<Word>)
    requires s.Valid()
  {
    forall k | 0 <= k < |words| :: words[k] == s.WordOf(k)
  }

  datatype Turn = GoOn | Stop | Fail | Found(end: nat)

  /** What a turn makes of word `n` when it is no number. */
  ghost predicate Ordinarily(s: Source, n: nat, after: nat, number: nat, newNumber: nat, found: bool, turn: Turn)
    requires s.Valid() && n > 0
  {
    !HasNumber(s, n) ==>
      && newNumber == number
      && (LocationAt(s, n) ==> found)
      && (IsPassedOver(s, n) ==> turn == GoOn && after == n)
      && (forall end :: !LocationAt(s, n) && found && n > MIN_ADDRESS_WORDS && StateAndZip(s, n, end) ==> turn == Found(end))
  }

  class AddressPass {
    ghost const source: Source
    ghost const ahead: iset<nat>
    const text: String16
    const tables: Tables
    const tokenizer: Tokenizer
    const parser: HouseNumberParser
    var words: seq<Word>
    var foundLocationName: bool
    var continueOnHouseNumber: bool
    var consecutiveHouseNumbers: bool
    var nextHouseNumberWord: nat
    var numLines: nat
    var nextWord: nat
    ghost var lookups: seq<nat>

    constructor (text: String16, tables: Tables, houseNumber: Word, parser: HouseNumberParser)
      requires houseNumber.Within(text) && WellFormedTables(tables)
      requires parser.text == text && parser.whitespace == tables.whitespace
      ensures source == Source(text, tables, houseNumber) && this.parser == parser
      ensures fresh(tokenizer) && Ready(1) && nextWord == 1 && continueOnHouseNumber
      ensures |words| == numLines == 1 && nextHouseNumberWord == 0 && NoneMissed(source, 1, foundLocationName) && lookups == []
    {
      source := Source(text, tables, houseNumber);
      ahead := WordsAhead(Source(text, tables, houseNumber));
      this.text, this.tables, this.parser := text, tables, parser;
      var tokens := new Tokenizer(text, Delims(tables), houseNumber.end);
      tokenizer := tokens;
      words := [houseNumber];
      foundLocationName, continueOnHouseNumber, consecutiveHouseNumbers := false, true, true;
      nextHouseNumberWord, numLines, nextWord := 0, 1, 1;
      lookups := [];
    }

    /** The word list holds the words of the text. */
    ghost predicate WordsOfText()
      reads this`words, tokenizer
    {
      && source.Valid() && source.text == text && source.tables == tables && WellFormedTables(tables)
      && tokenizer.text == text && tokenizer.delimiters == Delims(tables) && tokenizer.Valid()
      && parser.text == text && parser.whitespace == tables.whitespace
      && words != [] && AreWordsOf(source, words)
    }

    /** The word list goes as far as the tokenizer has come. */
    ghost predicate List()
      reads this`words, tokenizer
    {
      WordsOfText() && tokenizer.tokenEnd == words[|words| - 1].end
    }

    /** All words before word `k` have been accepted. */
    ghost predicate Ready(k: nat)
      reads this`words, this`nextHouseNumberWord, this`foundLocationName, this`lookups, this`numLines, tokenizer
    {
      && List() && 1 <= k <= |words| && nextHouseNumberWord < |words| && Accepted(source, k, foundLocationName)
      && Recorded(source, |words|, lookups) && AreAhead(source, ahead) && LinesRecorded(source, ahead, |words|, numLines)
    }

    /** Adds the next word of the text, empty when there is none. */
    method Extract(counted: set<Code>) returns (ok: bool, count: nat)
      requires List()
      modifies tokenizer
      ensures tokenizer.Valid() && Word(tokenizer.tokenBegin, tokenizer.tokenEnd) == source.WordOf(|words|)
      ensures ok <==> !EndsText(source, |words| - 1)
      ensures ok ==> tokenizer.tokenBegin < tokenizer.tokenEnd
      ensures counted == NEWLINE_DELIMITERS && ok ==> count == Gap(source, |words|)
    {
      ok, count := tokenizer.GetNextWord(counted);
    }

    method Push()
      requires source.Valid() && words != [] && AreWordsOf(source, words)
      requires Word(tokenizer.tokenBegin, tokenizer.tokenEnd) == source.WordOf(|words|)
      modifies this`words
      ensures words == old(words) + [source.WordOf(|old(words)|)] && AreWordsOf(source, words)
    {
      words := words + [Word(tokenizer.tokenBegin, tokenizer.tokenEnd)];
    }

    method ExtractOne()
      requires List()
      modifies this`words, tokenizer
      ensures List() && words == old(words) + [source.WordOf(|old(words)|)]
    {
      var _, _ := Extract({});
      Push();
    }

    /** Extracts one more word when the list has run out of them. */
    method Supply(k: nat)
      requires List() && k <= |words|
      modifies this`words, tokenizer
      ensures List() && |old(words)| <= |words| && |words| == Max(|old(words)|, k + 1)
    {
      if k == |words| {
        ExtractOne();
      }
    }

    // ----- The state -----

    method WordLowerCaseEqualsASCII(word: Word, name: seq<Code>, pos: nat) returns (equal: bool)
      requires word.Within(text) && pos <= |name|
      ensures equal <==> IsNamePart(TextOf(text, word), name, pos)
    {
      ghost var content := TextOf(text, word);
      var it, at := word.begin, pos;
      while it != word.end
        invariant word.begin <= it <= word.end && at == pos + it - word.begin <= |name|
        invariant forall k | pos <= k < at :: Lower(content)[k - pos] == name[k]
        decreases word.end - it
      {
        assert content[it - word.begin] == text[it];
        assert pos + |content| <= |name| ==> name[pos..pos + |content|][it - word.begin] == name[at];
        if at == |name| || ToLowerASCII(text[it]) != name[at] {
          return false;
        }
        it, at := it + 1, at + 1;
      }
      assert Lower(content) == name[pos..pos + |content|];
      return at == |name| || name[at] == SPACE;
    }

    method MatchPart(entry: StateName, k: nat, pos: nat) returns (equal: bool, next: nat)
      requires List() && k < |words| && pos < entry.length <= |entry.name|
      ensures next > pos
      ensures !equal ==> NameEnd(source, entry, k, pos) == None
      ensures equal && next >= entry.length ==> NameEnd(source, entry, k, pos) == Some(k)
      ensures equal && next < entry.length ==> NameEnd(source, entry, k, pos) == NameEnd(source, entry, k + 1, next)
      ensures !equal || next >= entry.length ==> NameReads(source, entry, k, pos) == k
      ensures equal && next < entry.length ==> NameReads(source, entry, k, pos) == NameReads(source, entry, k + 1, next)
    {
      equal := WordLowerCaseEqualsASCII(words[k], entry.name, pos);
      next := pos + words[k].Length() + 1;
    }

    method MatchName(entry: StateName, k: nat) returns (last: Option<nat>)
      requires List() && k < |words| && 0 < entry.length <= |entry.name|
      modifies this`words, tokenizer
      ensures List() && |old(words)| <= |words|
      ensures last == NameEnd(source, entry, k, 0)
      ensures last.Some? ==> last.value < |words|
      ensures |words| == Max(|old(words)|, NameReads(source, entry, k, 0) + 1)
    {
      ghost var goal, reading, from := NameEnd(source, entry, k, 0), NameReads(source, entry, k, 0), source;
      var stateWord: nat, pos: nat := k, 0;
      last := None;
      while true
        invariant List() && |old(words)| <= |words| && stateWord < |words| && pos < entry.length
        invariant source == from && goal == NameEnd(from, entry, stateWord, pos)
        invariant reading == NameReads(from, entry, stateWord, pos) && |words| == Max(|old(words)|, stateWord + 1)
        decreases entry.length - pos
      {
        var equal, next := MatchPart(entry, stateWord, pos);
        if !equal || next >= entry.length {
          last := if equal then Some(stateWord) else None;
          assert last == goal && reading == stateWord;
          break;
        }
        stateWord, pos := stateWord + 1, next;
        Supply(stateWord);
      }
    }

    method MatchNext(names: seq<StateName>, i: nat, k: nat) returns (state: Option<StateMatch>)
      requires List() && k < |words| && i < |names| && WellFormedName(names[i])
      modifies this`words, tokenizer
      ensures List() && |old(words)| <= |words|
      ensures state.Some? ==> Lookup(source, names, i, k, |old(words)|) == (state, |words|) && state.value.last < |words|
      ensures state.None? ==> Lookup(source, names, i, k, |old(words)|) == Lookup(source, names, i + 1, k, |words|)
    {
      LookupStep(source, names, i, k, |words|);
      if names[i].firstWordLength != words[k].Length() {
        return None;
      }
      var last := MatchName(names[i], k);
      return if last.Some? then Some(StateMatch(last.value, names[i].stateIndex)) else None;
    }

    method MatchNames(names: seq<StateName>, k: nat) returns (state: Option<StateMatch>)
      requires List() && k < |words|
      requires forall i | 0 <= i < |names| :: WellFormedName(names[i])
      modifies this`words, tokenizer
      ensures List() && |old(words)| <= |words|
      ensures state == FirstName(source, names, k)
      ensures state.Some? ==> state.value.last < |words|
      ensures |words| == Max(|old(words)|, NamesRead(source, names, k) + 1)
    {
      ghost var goal, from := Lookup(source, names, 0, k, |words|), source;
      LookupIsFirst(source, names, 0, k, |words|);
      for i := 0 to |names|
        invariant List() && |old(words)| <= |words|
        invariant from == source && goal == Lookup(from, names, i, k, |words|)
      {
        state := MatchNext(names, i, k);
        if state.Some? {
          return;
        }
      }
      return None;
    }

    method FindStateStartingInWord(k: nat) returns (state: Option<StateMatch>)
      requires List() && k < |words|
      modifies this`words, tokenizer
      ensures List() && |old(words)| <= |words|
      ensures state == StateAt(source, k)
      ensures state.Some? ==> state.value.last < |words|
      ensures |words| == Max(|old(words)|, StateReads(source, k) + 1)
    {
      var firstWord := words[k];
      if firstWord.Length() < 2 || !IsAsciiAlpha(text[firstWord.begin]) {
        return None;
      }
      var letter := ToLowerASCII(text[firstWord.begin]);
      if letter > LAST_LETTER {
        return None;
      }
      if firstWord.Length() == 2 && IsAsciiAlpha(text[firstWord.begin + 1]) {
        var code := (letter, ToLowerASCII(text[firstWord.begin + 1]));
        return if code in tables.stateCodes then Some(StateMatch(k, tables.stateCodes[code])) else None;
      }
      if letter !in tables.stateNames {
        return None;
      }
      state := MatchNames(tables.stateNames[letter], k);
    }

    // ----- One turn of the loop over the words -----

    /** Adds the next word to the list, unless it starts one line too late. */
    method FetchMore() returns (turn: Turn)
      requires List()
      modifies this`words, this`numLines, tokenizer
      ensures WordsOfText()
      ensures turn == Stop || turn == Fail || turn == GoOn
      ensures turn == GoOn <==> source.WordOf(|old(words)|).Length() > 0 && old(numLines) + Gap(source, |old(words)|) <= MAX_ADDRESS_LINES
      ensures turn == GoOn ==> List() && words == old(words) + [source.WordOf(|old(words)|)]
      ensures turn == GoOn ==> numLines == old(numLines) + Gap(source, |old(words)|)
      ensures turn != GoOn ==> words == old(words)
    {
      EmptyMeansEnd(source, |words|);
      var ok, count := Extract(NEWLINE_DELIMITERS);
      if !ok {
        return Fail;
      }
      numLines := numLines + count;
      if numLines > MAX_ADDRESS_LINES {
        return Stop;
      }
      Push();
      return GoOn;
    }

    method IsEtAl(k: nat) returns (etAl: bool)
      requires List() && 0 < k < |words|
      ensures etAl <==> EtAl(source, k)
    {
      var current, previous := words[k], words[k - 1];
      if current.Length() == 2 && previous.Length() == 2 {
        etAl := Lower(text[previous.begin..previous.end]) == ET && Lower(text[current.begin..current.end]) == AL;
      } else {
        assert |Lower(source.Text(k))| != 2 || |Lower(source.Text(k - 1))| != 2;
        etAl := false;
      }
    }

    /** Makes sure that word `k` is in the list, unless the text ends first. */
    method Reach(k: nat) returns (ok: bool)
      requires List() && 0 < k <= |words| && Recorded(source, |words|, lookups)
      modifies this`words, tokenizer
      ensures |old(words)| <= |words| <= Max(|old(words)|, k + 1)
      ensures ok ==> List() && k < |words| && Recorded(source, |words|, lookups)
      ensures !ok ==> words == old(words) && EndsText(source, k - 1)
    {
      ok := k < |words|;
      if !ok {
        var found, _ := Extract({});
        if found {
          RecordedAfterWord(source, |words|, lookups);
          Push();
          ok := true;
        }
      }
    }

    method CheckZip(m: StateMatch) returns (valid: bool)
      requires List() && m.last + 1 < |words| && m.index < |tables.zipRanges|
      ensures valid <==> ZipAt(source, m.last + 1, m.index)
    {
      valid := IsZipValid(text, words[m.last + 1], tables, m.index);
    }

    /** After the state: the address is complete, or the search goes on behind the state. */
    method LookForZip(m: StateMatch) returns (turn: Turn)
      requires List() && nextWord <= m.last < |words| && m.index < |tables.zipRanges| && Recorded(source, |words|, lookups)
      modifies this`words, this`nextWord, tokenizer
      ensures |old(words)| <= |words| <= Max(|old(words)|, m.last + 2) && (turn == GoOn || turn.Found?)
      ensures turn.Found? ==> Closes(source, m, turn.end)
      ensures ZipAt(source, m.last + 1, m.index) ==> turn == Found(source.WordOf(m.last + 1).end)
      ensures turn == GoOn ==> List() && nextWord == m.last && Recorded(source, |words|, lookups)
    {
      var ok := Reach(m.last + 1);
      if !ok {
        EndOfTextCloses(source, m);
        return Found(words[m.last].end);
      }
      nextWord := m.last;
      var valid := CheckZip(m);
      if !valid {
        return GoOn;
      }
      return Found(words[m.last + 1].end);
    }

    /** Looks up a state, and keeps a record of that. */
    method LookUp(k: nat) returns (state: Option<StateMatch>)
      requires List() && 0 < k < |words| && Recorded(source, |words|, lookups)
      modifies this`words, this`lookups, tokenizer
      ensures List() && |old(words)| <= |words| && Recorded(source, |words|, lookups) && lookups == old(lookups) + [k]
      ensures state == StateAt(source, k)
      ensures state.Some? ==> state.value.last < |words| && state.value.index < |tables.zipRanges|
      ensures |words| <= Max(|old(words)|, ReadsTo(source, k) + 1)
      ensures state.Some? ==> k <= state.value.last && forall l | k < l <= state.value.last :: ShortWord(source, l)
    {
      RecordedAfterLookup(source, |words|, lookups, k);
      state := FindStateStartingInWord(k);
      lookups := lookups + [k];
      if state.Some? {
        MatchesSpell(source, k);
      }
    }

    /** Looks for a state at the next word. */
    method LookForState() returns (turn: Turn)
      requires List() && 0 < nextWord < |words| && Recorded(source, |words|, lookups)
      modifies this`words, this`nextWord, this`lookups, tokenizer
      ensures turn != Fail && (turn.Found? || nextWord >= old(nextWord))
      ensures |old(words)| <= |words| <= Max(|old(words)|, ReadsTo(source, old(nextWord)) + 1)
      ensures turn.Found? ==> foundLocationName && StateCloses(source, old(nextWord), turn.end)
      ensures forall end :: foundLocationName && StateAndZip(source, old(nextWord), end) ==> turn == Found(end)
      ensures !turn.Found? ==> List() && nextWord < |words| && Recorded(source, |words|, lookups)
      ensures lookups == old(lookups) + [old(nextWord)]
      ensures turn == GoOn ==> forall l | old(nextWord) < l <= nextWord :: ShortWord(source, l)
      ensures StateAt(source, old(nextWord)) == None ==> turn == GoOn && nextWord == old(nextWord)
    {
      var state := LookUp(nextWord);
      if state == None {
        return GoOn;
      }
      if !foundLocationName {
        return Stop;
      }
      var etAl := IsEtAl(nextWord);
      if etAl {
        return Stop;
      }
      turn := LookForZip(state.value);
    }

    /** A word that is itself a number may be where the search starts again. */
    method LookForNumber() returns (turn: Option<Turn>)
      requires WordsOfText() && 0 < nextWord < |words|
      modifies this`consecutiveHouseNumbers, this`nextHouseNumberWord, parser
      ensures turn == None || turn == Some(Stop) || turn == Some(GoOn)
      ensures nextHouseNumberWord == old(nextHouseNumberWord) || nextHouseNumberWord == nextWord
      ensures !HasNumber(source, nextWord) ==> turn == None && nextHouseNumberWord == old(nextHouseNumberWord)
    {
      var current := words[nextWord];
      var number := parser.Parse(current.begin, current.end);
      if number.None? {
        consecutiveHouseNumbers := false;
        return None;
      }
      if consecutiveHouseNumbers && numLines > 1 {
        nextHouseNumberWord := nextWord;
        return Some(Stop);
      }
      if nextHouseNumberWord == 0 {
        nextHouseNumberWord := nextWord;
        return Some(GoOn);
      }
      return None;
    }

    method LookForLocation() returns (found: bool)
      requires WordsOfText() && 0 < nextWord < |words|
      modifies this`foundLocationName
      ensures found <==> LocationAt(source, nextWord)
      ensures foundLocationName == (old(foundLocationName) || found)
    {
      if nextWord <= MAX_LOCATION_NAME_DISTANCE {
        found := IsValidLocationName(text, words[nextWord], tables);
        if found {
          foundLocationName := true;
        }
      } else {
        found := false;
      }
    }

    /** A number or a location name: the turn is over. */
    method LookForStreet() returns (turn: Option<Turn>)
      requires WordsOfText() && 0 < nextWord < |words|
      modifies this`foundLocationName, this`consecutiveHouseNumbers, this`nextHouseNumberWord, parser
      ensures turn == None || turn == Some(Stop) || turn == Some(GoOn)
      ensures nextHouseNumberWord == old(nextHouseNumberWord) || nextHouseNumberWord == nextWord
      ensures foundLocationName != old(foundLocationName) ==> foundLocationName && LocationAt(source, nextWord)
      ensures turn == None ==> foundLocationName == old(foundLocationName) && !LocationAt(source, nextWord)
      ensures !HasNumber(source, nextWord) ==>
        && nextHouseNumberWord == old(nextHouseNumberWord)
        && turn == (if LocationAt(source, nextWord) then Some(GoOn) else None)
        && (LocationAt(source, nextWord) ==> foundLocationName)
    {
      turn := LookForNumber();
      if turn == None {
        var location := LookForLocation();
        if location {
          turn := Some(GoOn);
        }
      }
    }

    /** Looks at the next word, which is in the list. */
    method Inspect() returns (turn: Turn)
      requires List() && 0 < nextWord < |words| && Recorded(source, |words|, lookups)
      modifies this`words, this`nextWord, this`foundLocationName, this`lookups,
               this`consecutiveHouseNumbers, this`nextHouseNumberWord, tokenizer, parser
      ensures turn != Fail && (turn.Found? || nextWord >= old(nextWord))
      ensures LongerByLookup(source, old(nextWord), |old(words)|, |words|)
      ensures nextHouseNumberWord == old(nextHouseNumberWord) || nextHouseNumberWord == old(nextWord)
      ensures foundLocationName != old(foundLocationName) ==> foundLocationName && LocationAt(source, old(nextWord))
      ensures !turn.Found? ==> List() && nextWord < |words| && Recorded(source, |words|, lookups)
      ensures LooksUp(source, old(nextWord)) ==> lookups == old(lookups) + [old(nextWord)]
      ensures turn == GoOn ==> forall l | old(nextWord) < l <= nextWord :: ShortWord(source, l)
      ensures turn.Found? ==> old(foundLocationName) && old(nextWord) > MIN_ADDRESS_WORDS && StateCloses(source, old(nextWord), turn.end)
      ensures Ordinarily(source, old(nextWord), nextWord, old(nextHouseNumberWord), nextHouseNumberWord, foundLocationName, turn)
    {
      var street := LookForStreet();
      if street.Some? {
        return street.value;
      }
      if nextWord > MIN_ADDRESS_WORDS {
        turn := LookForState();
      } else {
        turn := GoOn;
      }
    }

    /** Gets the next word into the list; a long word ends the pass for good. */
    method Prepare() returns (turn: Turn)
      requires List() && 0 < nextWord <= |words| && Recorded(source, |words|, lookups)
      modifies this`words, this`numLines, this`continueOnHouseNumber, tokenizer
      ensures turn == Stop || turn == Fail || turn == GoOn
      ensures WordsOfText() && |old(words)| <= |words|
      ensures turn == GoOn ==> List() && nextWord < |words| && ShortWord(source, nextWord) && Recorded(source, |words|, lookups)
      ensures turn == GoOn && words[nextWord].Length() == 0 <==> ReadPastEnd(source, lookups, nextWord)
      ensures turn == GoOn <==> Fits(source, old(Come()))
      ensures turn == GoOn ==> Come() == WithWord(source, old(Come()))
    {
      ghost var s := source;
      EmptyMeansEnd(s, nextWord);
      if nextWord == |words| {
        turn := FetchMore();
        if turn != GoOn {
          return;
        }
        RecordedAfterWord(s, nextWord, lookups);
      }
      if words[nextWord].Length() > MAX_NAME_WORD_LENGTH {
        continueOnHouseNumber := false;
        return Stop;
      }
      return GoOn;
    }

    /** How far the pass has come. */
    function Come(): Progress
      reads this`nextWord, this`numLines, this`words, this`nextHouseNumberWord, this`foundLocationName
    {
      Progress(nextWord, numLines, |words|, nextHouseNumberWord, foundLocationName)
    }

    /** What the word is, and what follows from that. */
    method Judge() returns (turn: Turn)
      requires Ready(nextWord) && nextWord < |words| && nextWord <= MAX_ADDRESS_WORDS + 1 && ShortWord(source, nextWord)
      modifies this`words, this`nextWord, this`foundLocationName, this`lookups,
               this`consecutiveHouseNumbers, this`nextHouseNumberWord, tokenizer, parser
      ensures turn != Fail
      ensures LooksUp(source, old(nextWord)) ==> lookups == old(lookups) + [old(nextWord)]
      ensures turn.Found? ==> EndsAddress(source, turn.end)
      ensures turn == Stop ==> WordsOfText() && nextHouseNumberWord < |words|
      ensures turn == GoOn ==> Ready(nextWord + 1) && nextWord >= old(nextWord)
      ensures IsJudged(source, old(Come()), Come(), turn)
    {
      ghost var s, n, found := source, nextWord, foundLocationName;
      ghost var length := |words|;
      FewLinesBefore(s, ahead, n, length, numLines);
      turn := Inspect();
      LinesAfterLookup(s, ahead, n, length, |words|, numLines);
      assert LooksUp(s, n) ==> lookups[|lookups| - 1] == n;
      TurnOutcome(s, ahead, n, found, foundLocationName, turn);
    }

    /** Gets the next word into the list, with its lines counted. */
    method Advance() returns (turn: Turn)
      requires Ready(nextWord)
      modifies this`words, this`numLines, this`continueOnHouseNumber, tokenizer
      ensures turn == Stop || turn == Fail || turn == GoOn
      ensures WordsOfText() && |old(words)| <= |words|
      ensures turn == GoOn ==> Ready(nextWord) && nextWord < |words| && ShortWord(source, nextWord)
      ensures turn == GoOn <==> Fits(source, old(Come()))
      ensures turn == GoOn ==> Come() == WithWord(source, old(Come()))
    {
      LinesWithWord(source, ahead, Come());
      turn := Prepare();
    }

    /** One turn of the loop. */
    method TakeTurn() returns (turn: Turn)
      requires Ready(nextWord) && nextWord <= MAX_ADDRESS_WORDS + 1
      modifies this, tokenizer, parser
      ensures turn.Found? ==> EndsAddress(source, turn.end)
      ensures turn == Stop ==> WordsOfText() && nextHouseNumberWord < |words|
      ensures turn == GoOn ==> Ready(nextWord + 1) && nextWord >= old(nextWord)
      ensures if Fits(source, old(Come())) then IsJudged(source, WithWord(source, old(Come())), Come(), turn) else turn == Stop || turn == Fail
    {
      turn := Advance();
      if turn == GoOn {
        turn := Judge();
      }
    }

    /** The loop over the words after the house number. The parameters are for addresses in plain form. */
    method Scan(ghost k: nat, ghost m: StateMatch) returns (turn: Turn)
      requires Ready(1) && nextWord == |words| == numLines == 1 && nextHouseNumberWord == 0 && NoneMissed(source, 1, foundLocationName)
      modifies this, tokenizer, parser
      ensures turn != GoOn
      ensures turn.Found? ==> EndsAddress(source, turn.end)
      ensures turn == Stop ==> WordsOfText() && nextHouseNumberWord < |words|
      ensures IsPlainAddress(source, k, m) ==> turn == Found(source.WordOf(m.last + 1).end)
    {
      ghost var s, far, come := source, ahead, Come();
      ghost var plain := IsPlainAddress(s, k, m);
      PlainFromTheStart(s, far, k, m, come);
      while nextWord <= MAX_ADDRESS_WORDS + 1
        invariant Ready(nextWord) && come == Come()
        invariant plain ==> PlainAhead(s, far, k, m, come)
        decreases MAX_ADDRESS_WORDS + 1 - nextWord
      {
        turn := TakeTurn();
        ghost var after := Come();
        PlainComesNearer(s, far, k, m, come, after, turn);
        come := after.(word := after.word + 1);
        if turn != GoOn {
          return;
        }
        nextWord := nextWord + 1;
      }
      return Stop;
    }

    /** Where the search for a house number starts again: behind the house number of this pass. */
    method Resume() returns (it: nat)
      requires WordsOfText() && nextHouseNumberWord < |words|
      requires AtBreak(text, tables.whitespace, |text|, source.first.end)
      modifies this`nextWord
      ensures source.first.end <= it <= |text| && CanResume(text, tables, it)
    {
      if continueOnHouseNumber && nextHouseNumberWord > 0 {
        it := words[nextHouseNumberWord].begin;
        WordsAreResumable(source, nextHouseNumberWord);
      } else {
        nextWord := if nextWord < |words| - 1 then nextWord else |words| - 1;
        it := words[nextWord].end;
        WordsAreResumable(source, nextWord);
        WordsAscend(text, Delims(tables), source.first, 0, nextWord);
      }
    }
  }

  ghost predicate EndsAddress(s: Source, end: nat)
    requires s.Valid()
  {
    exists k, m :: IsAddress(s, k, m, end)
  }

  lemma TurnOutcome(s: Source, ahead: iset<nat>, n: nat, wasFound: bool, found: bool, turn: Turn)
    requires s.Valid() && WellFormedTables(s.tables) && 0 < n <= MAX_ADDRESS_WORDS + 1 && ShortWord(s, n)
    requires Accepted(s, n, wasFound)
    requires AreAhead(s, ahead) && LinesBut(Gaps(s), ahead, n) <= MAX_ADDRESS_LINES
    requires found != wasFound ==> found && LocationAt(s, n)
    requires turn.Found? ==> wasFound && n > MIN_ADDRESS_WORDS && StateCloses(s, n, turn.end)
    ensures turn.Found? ==> EndsAddress(s, turn.end)
    ensures Accepted(s, n + 1, found)
  {
    if turn.Found? {
      SeenLinesAre(s, ahead, n);
      MatchesSpell(s, n);
      assert IsAddress(s, n, StateAt(s, n).value, turn.end);
    }
  }

  /** How far a pass has come: its word, its lines, the length of its list, another number, a location name. */
  datatype Progress = Progress(word: nat, lines: nat, length: nat, number: nat, found: bool)

  /** The next word is in the list or is there to be added, begins on one of the first lines, and is not long. */
  predicate Fits(s: Source, p: Progress)
    requires s.Valid() && p.word > 0
  {
    && ShortWord(s, p.word)
    && (p.word == p.length ==> s.WordOf(p.word).Length() > 0 && p.lines + Gap(s, p.word) <= MAX_ADDRESS_LINES)
  }

  /** With the next word in the list. */
  function WithWord(s: Source, p: Progress): Progress
    requires s.Valid() && p.word > 0
  {
    if p.word == p.length then p.(lines := p.lines + Gap(s, p.word), length := p.length + 1) else p
  }

  /** What the lookups before a word have read is in the list. */
  ghost predicate LookedUpWithin(s: Source, word: nat, length: nat)
    requires s.Valid()
  {
    forall j | 0 < j < word && LooksUp(s, j) :: StateReads(s, j) < length
  }

  /** A plain address is still ahead, nothing has been missed, and no line was counted that had been read ahead. */
  ghost predicate PlainAhead(s: Source, ahead: iset<nat>, k: nat, m: StateMatch, p: Progress)
    requires s.Valid()
  {
    IsPlainAddress(s, k, m) && OnTheWay(s, ahead, k, p)
  }

  ghost predicate OnTheWay(s: Source, ahead: iset<nat>, k: nat, p: Progress)
    requires s.Valid()
  {
    && 0 < p.word <= k && p.number == 0 && NoneMissed(s, p.word, p.found)
    && p.word <= p.length && p.lines <= LinesBut(Gaps(s), ahead, p.length - 1) && LookedUpWithin(s, p.word, p.length)
  }

  lemma PlainFromTheStart(s: Source, ahead: iset<nat>, k: nat, m: StateMatch, p: Progress)
    requires s.Valid() && p.word == p.lines == p.length == 1 && p.number == 0 && NoneMissed(s, 1, p.found)
    ensures IsPlainAddress(s, k, m) ==> PlainAhead(s, ahead, k, m, p)
  {
  }

  /** What a turn makes of a word in the list. */
  ghost predicate IsJudged(s: Source, before: Progress, after: Progress, turn: Turn)
    requires s.Valid() && before.word > 0
  {
    && before.length <= after.length && before.lines == after.lines && (before.found ==> after.found)
    && (turn == GoOn ==> after.word < after.length)
    && (turn == GoOn && LooksUp(s, before.word) ==> StateReads(s, before.word) < after.length)
    && Ordinarily(s, before.word, after.word, before.number, after.number, after.found, turn)
  }

  /** A turn on the way to a plain address leads nearer, or to its end. */
  lemma PlainComesNearer(s: Source, ahead: iset<nat>, k: nat, m: StateMatch, before: Progress, after: Progress, turn: Turn)
    requires s.Valid() && AreAhead(s, ahead) && 0 < before.word
    requires Fits(s, before) ==> IsJudged(s, WithWord(s, before), after, turn)
    ensures PlainAhead(s, ahead, k, m, before) ==>
      turn == Found(s.WordOf(m.last + 1).end) || (turn == GoOn && PlainAhead(s, ahead, k, m, after.(word := after.word + 1)))
  {
    if PlainAhead(s, ahead, k, m, before) {
      PlainWordFits(s, ahead, k, m, before);
      PlainJudged(s, ahead, k, m, WithWord(s, before), after, turn);
    }
  }

  lemma PlainJudged(s: Source, ahead: iset<nat>, k: nat, m: StateMatch, before: Progress, after: Progress, turn: Turn)
    requires s.Valid() && PlainAhead(s, ahead, k, m, before) && IsJudged(s, before, after, turn)
    ensures turn == Found(s.WordOf(m.last + 1).end) || (turn == GoOn && PlainAhead(s, ahead, k, m, after.(word := after.word + 1)))
  {
    TurnOnTheWay(s, k, m, before.word, after.word, before.found, after.found, before.number, after.number, turn);
    if turn == GoOn {
      StillOnTheWay(s, ahead, k, before, after);
    }
  }

  lemma StillOnTheWay(s: Source, ahead: iset<nat>, k: nat, before: Progress, after: Progress)
    requires s.Valid() && OnTheWay(s, ahead, k, before) && before.word < k
    requires after.word == before.word && after.number == before.number && NoneMissed(s, after.word + 1, after.found)
    requires before.length <= after.length && before.lines == after.lines && after.word < after.length
    requires LooksUp(s, before.word) ==> StateReads(s, before.word) < after.length
    ensures OnTheWay(s, ahead, k, after.(word := after.word + 1))
  {
    LinesGrow(Gaps(s), ahead, before.length - 1, after.length - 1);
    LookedUpFurther(s, before.word, before.length, after.length);
  }

  lemma LookedUpFurther(s: Source, word: nat, length: nat, longer: nat)
    requires s.Valid() && LookedUpWithin(s, word, length) && length <= longer
    requires LooksUp(s, word) ==> StateReads(s, word) < longer
    ensures LookedUpWithin(s, word + 1, longer)
  {
  }

  /** A word that is passed over leads on to the next. */
  lemma PassedOverGoesOn(s: Source, n: nat, after: nat, wasFound: bool, found: bool, number: nat, newNumber: nat, turn: Turn)
    requires s.Valid() && 0 < n && (wasFound ==> found) && NoneMissed(s, n, wasFound)
    requires !HasNumber(s, n) && IsPassedOver(s, n) && Ordinarily(s, n, after, number, newNumber, found, turn)
    ensures turn == GoOn && after == n && newNumber == number && NoneMissed(s, n + 1, found)
  {
  }

  /** A state with its ZIP code ends the pass. */
  lemma StateAndZipIsFound(s: Source, n: nat, after: nat, found: bool, number: nat, newNumber: nat, turn: Turn, end: nat)
    requires s.Valid() && n > MIN_ADDRESS_WORDS && found && !HasNumber(s, n) && !LocationAt(s, n) && StateAndZip(s, n, end)
    requires Ordinarily(s, n, after, number, newNumber, found, turn)
    ensures turn == Found(end)
  {
  }

  lemma TurnOnTheWay(s: Source, k: nat, m: StateMatch, n: nat, after: nat, wasFound: bool, found: bool, number: nat, newNumber: nat, turn: Turn)
    requires s.Valid() && 0 < n <= k && (wasFound ==> found) && IsPlainAddress(s, k, m) && NoneMissed(s, n, wasFound)
    requires Ordinarily(s, n, after, number, newNumber, found, turn)
    ensures n < k ==> turn == GoOn && after == n && newNumber == number && NoneMissed(s, n + 1, found)
    ensures n == k ==> turn == Found(s.WordOf(m.last + 1).end)
  {
    if n < k {
      PassedBeforePlain(s, k, m, n);
      PassedOverGoesOn(s, n, after, wasFound, found, number, newNumber, turn);
    } else {
      PlainState(s, k, m, wasFound);
      StateAndZipIsFound(s, n, after, found, number, newNumber, turn, s.WordOf(m.last + 1).end);
    }
  }

  lemma PlainState(s: Source, k: nat, m: StateMatch, found: bool)
    requires s.Valid() && IsPlainAddress(s, k, m) && NoneMissed(s, k, found)
    ensures k > MIN_ADDRESS_WORDS && found && !HasNumber(s, k) && !LocationAt(s, k) && StateAndZip(s, k, s.WordOf(m.last + 1).end)
  {
    assert IsOrdinary(s, k);
  }

  lemma LinesWithWord(s: Source, ahead: iset<nat>, p: Progress)
    requires s.Valid() && 0 < p.word <= p.length && LinesRecorded(s, ahead, p.length, p.lines)
    ensures Fits(s, p) ==> LinesRecorded(s, ahead, WithWord(s, p).length, WithWord(s, p).lines)
  {
    if Fits(s, p) && p.word == p.length {
      LinesAfterWord(s, ahead, p.length, p.lines);
    }
  }

  /** On the way to a plain address's state, words are not empty, not long, and not too many lines down. */
  lemma PlainWordFits(s: Source, ahead: iset<nat>, k: nat, m: StateMatch, p: Progress)
    requires s.Valid() && AreAhead(s, ahead) && p.word > 0
    ensures PlainAhead(s, ahead, k, m, p) ==> Fits(s, p) && PlainAhead(s, ahead, k, m, WithWord(s, p))
  {
    if PlainAhead(s, ahead, k, m, p) {
      assert IsOrdinary(s, p.word);
      if p.word == p.length {
        PlainWordIsNotReadAhead(s, ahead, k, m, p);
        PlainWordCounts(s, ahead, k, m, p);
        OnTheWayWithWord(s, ahead, k, p);
      }
    }
  }

  lemma OnTheWayWithWord(s: Source, ahead: iset<nat>, k: nat, p: Progress)
    requires s.Valid() && OnTheWay(s, ahead, k, p) && p.word == p.length
    requires p.lines + Gap(s, p.word) <= LinesBut(Gaps(s), ahead, p.word)
    ensures OnTheWay(s, ahead, k, WithWord(s, p))
  {
  }

  lemma PlainWordCounts(s: Source, ahead: iset<nat>, k: nat, m: StateMatch, p: Progress)
    requires s.Valid() && AreAhead(s, ahead) && PlainAhead(s, ahead, k, m, p) && p.word == p.length && p.word !in ahead
    ensures s.WordOf(p.word).Length() > 0
    ensures p.lines + Gap(s, p.word) <= LinesBut(Gaps(s), ahead, p.word) <= MAX_ADDRESS_LINES
  {
    assert s.Text(k) != [];
    EmptyWordsAreLast(s.text, Delims(s.tables), s.first, p.word, k);
    MoreLinesByGap(s, ahead, p.word);
    PlainLines(s, ahead, k, m, p.word);
  }

  lemma PlainLines(s: Source, ahead: iset<nat>, k: nat, m: StateMatch, n: nat)
    requires s.Valid() && AreAhead(s, ahead) && IsPlainAddress(s, k, m) && n <= k
    ensures LinesBut(Gaps(s), ahead, n) <= MAX_ADDRESS_LINES
  {
    LinesGrow(Gaps(s), ahead, n, k);
    SeenLinesAre(s, ahead, k);
  }

  lemma PlainWordIsNotReadAhead(s: Source, ahead: iset<nat>, k: nat, m: StateMatch, p: Progress)
    requires s.Valid() && AreAhead(s, ahead) && PlainAhead(s, ahead, k, m, p) && p.word == p.length
    ensures p.word !in ahead
  {
    if ReadAhead(s, p.word) {
      var j :| ReadAheadFrom(s, j, p.word);
      PassedBeforePlain(s, k, m, j);
      assert false;
    }
  }

  // ----- The limit on lines -----

  /** The lines from the house number to a word. */
  function Lines(s: Source, k: nat): nat
    requires s.Valid() && k > 0
  {
    1 + CountIn(s.text, NEWLINE_DELIMITERS * Delims(s.tables), s.first.end, s.WordOf(k).begin)
  }

  lemma {:induction false} NoLinesInWords(s: Source, k: nat, limit: nat)
    requires s.Valid() && k > 0 && s.WordOf(k).begin <= limit <= s.WordOf(k).end
    ensures CountIn(s.text, NEWLINE_DELIMITERS * Delims(s.tables), s.WordOf(k).begin, limit) == 0
    decreases limit
  {
    if s.WordOf(k).begin < limit {
      NoLinesInWords(s, k, limit - 1);
    }
  }

  lemma {:induction false} LinesByGaps(s: Source, k: nat)
    requires s.Valid() && k > 0
    ensures Lines(s, k) == LinesBut(Gaps(s), iset{}, k)
  {
    if k > 1 {
      var kind := NEWLINE_DELIMITERS * Delims(s.tables);
      var before, word := s.WordOf(k - 1), s.WordOf(k);
      LinesByGaps(s, k - 1);
      WordsAscend(s.text, Delims(s.tables), s.first, k - 1, k);
      CountInSplits(s.text, kind, s.first.end, before.begin, word.begin);
      CountInSplits(s.text, kind, before.begin, before.end, word.begin);
      NoLinesInWords(s, k - 1, before.end);
    } else {
      assert LinesBut(Gaps(s), iset{}, 0) == 1;
    }
  }

  lemma {:induction false} SkippingIff(gaps: nat -> nat, skipped: iset<nat>, k: nat)
    ensures LinesBut(gaps, skipped, k) <= LinesBut(gaps, iset{}, k)
    ensures LinesBut(gaps, skipped, k) == LinesBut(gaps, iset{}, k) <==> forall n | 1 <= n <= k && n in skipped :: gaps(n) == 0
  {
    if k > 0 {
      SkippingIff(gaps, skipped, k - 1);
    }
  }

  /** The limit applies to all the lines of the text exactly when no word read ahead begins a line. */
  lemma LinesAreSeenIff(s: Source, k: nat)
    requires s.Valid() && k > 0
    ensures SeenLines(s, k) <= Lines(s, k)
    ensures SeenLines(s, k) == Lines(s, k) <==> forall n | 1 <= n <= k && ReadAhead(s, n) :: Gap(s, n) == 0
  {
    LinesByGaps(s, k);
    SkippingIff(Gaps(s), WordsAhead(s), k);
    assert forall n: nat :: n in WordsAhead(s) <==> ReadAhead(s, n);
  }

  // ----- The whole text -----

  /** A plain address's state is the first there is. */
  lemma PlainAddressIsUnique(s: Source, k: nat, m: StateMatch, k': nat, m': StateMatch)
    requires s.Valid() && IsPlainAddress(s, k, m) && IsPlainAddress(s, k', m')
    ensures k == k' && m == m'
  {
    if k < k' {
      PassedBeforePlain(s, k', m', k);
    } else if k' < k {
      PassedBeforePlain(s, k, m, k');
    }
  }

  lemma PassedBeforePlain(s: Source, k: nat, m: StateMatch, l: nat)
    requires s.Valid() && IsPlainAddress(s, k, m) && 1 <= l < k
    ensures !HasNumber(s, l) && IsPassedOver(s, l)
  {
    assert IsOrdinary(s, l);
  }

  lemma FirstRunIsUnique(text: String16, whitespace: set<Code>, from: nat, word: Word, other: Word)
    requires from <= |text| && IsFirstRun(text, whitespace, from, |text|, word) && IsFirstRun(text, whitespace, from, |text|, other)
    ensures word == other
  {
  }

  /** A scan may begin where a word begins or ends. */
  lemma WordsAreResumable(s: Source, k: nat)
    requires s.Valid() && WellFormedTables(s.tables) && AtBreak(s.text, s.tables.whitespace, |s.text|, s.first.end)
    ensures CanResume(s.text, s.tables, s.WordOf(k).end)
    ensures k > 0 ==> CanResume(s.text, s.tables, s.WordOf(k).begin)
    decreases k
  {
    if k > 0 {
      WordsAreResumable(s, k - 1);
      NextWordStarts(s.text, Delims(s.tables), s.WordOf(k - 1).end);
    }
  }

  lemma {:induction false} NextWordStarts(text: String16, delimiters: Delimiters, at: nat)
    requires at <= |text|
    ensures var word := NextWord(text, delimiters, at);
      word.Some? ==> && (word.value.begin == at || text[word.value.begin - 1] in delimiters)
                     && (word.value.end < |text| ==> text[word.value.end] in delimiters)
    decreases |text| - at
  {
    if at < |text| && text[at] in delimiters {
      NextWordStarts(text, delimiters, at + 1);
    }
  }

  /** The search from one house number on. */
  method ScanFrom(text: String16, tables: Tables, houseNumber: Word, parser: HouseNumberParser) returns (turn: Turn, it: nat)
    requires houseNumber.Within(text) && WellFormedTables(tables) && AtBreak(text, tables.whitespace, |text|, houseNumber.end)
    requires parser.text == text && parser.whitespace == tables.whitespace
    modifies parser
    ensures turn != GoOn
    ensures turn.Found? ==> EndsAddress(Source(text, tables, houseNumber), turn.end)
    ensures turn == Stop ==> houseNumber.end <= it <= |text| && CanResume(text, tables, it)
    ensures forall k, m :: IsPlainAddress(Source(text, tables, houseNumber), k, m) ==>
      turn == Found(Source(text, tables, houseNumber).WordOf(m.last + 1).end)
  {
    ghost var s := Source(text, tables, houseNumber);
    ghost var k: nat, m := 0, StateMatch(0, 0);
    if exists k, m :: IsPlainAddress(s, k, m) {
      k, m :| IsPlainAddress(s, k, m);
      forall k', m' | IsPlainAddress(s, k', m') ensures k == k' && m == m' {
        PlainAddressIsUnique(s, k, m, k', m');
      }
    }
    var pass := new AddressPass(text, tables, houseNumber, parser);
    turn := pass.Scan(k, m);
    it := 0;
    if turn == Stop {
      it := pass.Resume();
    }
  }

  /** An address in a text: it has a left boundary, and a house number found from a place where the scan may begin. */
  ghost predicate AddressIn(text: String16, tables: Tables, address: Word) {
    && IsLeftBoundary(text, tables, address.begin)
    && exists first: Word, from: nat :: first.Within(text) && IsAddressFrom(Source(text, tables, first), from, address)
  }

  ghost predicate IsAddressFrom(s: Source, from: nat, address: Word)
    requires s.Valid()
  {
    StartsWithNumber(s, from) && s.first.begin == address.begin && exists k, m :: IsAddressText(s, k, m, address.end)
  }

  /** When the text's first house number starts a plain address, that is the one reported. */
  ghost predicate PlainIsReported(text: String16, tables: Tables, address: Option<Word>) {
    forall first: Word, k, m :: PlainStandsFirst(text, tables, first, k, m) ==>
      address == Some(Word(first.begin, Source(text, tables, first).WordOf(m.last + 1).end))
  }

  ghost predicate PlainStandsFirst(text: String16, tables: Tables, first: Word, k: nat, m: StateMatch) {
    first.Within(text) && StartsWithNumber(Source(text, tables, first), 0) && IsPlainText(Source(text, tables, first), k, m)
  }

  ghost predicate NoPlainFirst(text: String16, tables: Tables) {
    forall first: Word, k, m :: !PlainStandsFirst(text, tables, first, k, m)
  }

  function Outcome(houseNumber: Word, turn: Turn): Option<Word> {
    if turn.Found? then Some(Word(houseNumber.begin, turn.end)) else None
  }

  /** The first pass decides about plain addresses. */
  lemma FirstPassDecides(text: String16, tables: Tables, houseNumber: Word, turn: Turn)
    requires houseNumber.Within(text) && IsFirstRun(text, tables.whitespace, 0, |text|, houseNumber) && WellFormedTables(tables)
    requires forall k, m :: IsPlainAddress(Source(text, tables, houseNumber), k, m) ==>
      turn == Found(Source(text, tables, houseNumber).WordOf(m.last + 1).end)
    ensures PlainIsReported(text, tables, Outcome(houseNumber, turn))
    ensures !turn.Found? ==> NoPlainFirst(text, tables)
  {
    forall first: Word, k, m | PlainStandsFirst(text, tables, first, k, m)
      ensures first == houseNumber && IsPlainAddress(Source(text, tables, first), k, m)
    {
      FoundIsLeftmostNumeral(text, tables.whitespace, 0, |text|, first);
      FirstRunIsUnique(text, tables.whitespace, 0, first, houseNumber);
      PlainMeans(Source(text, tables, first), k, m);
    }
  }

  lemma NoNumberNoPlain(text: String16, tables: Tables)
    requires !HasRun(text, tables.whitespace, 0, |text|) && WellFormedTables(tables)
    ensures NoPlainFirst(text, tables)
  {
    HasRunIff(text, tables.whitespace, 0, |text|);
  }

  method FindAddress(text: String16, tables: Tables) returns (address: Option<Word>)
    requires WellFormedTables(tables)
    ensures address.Some? ==> address.value.begin < address.value.end <= |text| && AddressIn(text, tables, address.value)
    ensures PlainIsReported(text, tables, address)
  {
    var parser := new HouseNumberParser(text, tables.whitespace);
    var it := 0;
    while it != |text|
      invariant CanResume(text, tables, it)
      invariant it > 0 ==> NoPlainFirst(text, tables)
      decreases |text| - it
    {
      var turn, houseNumber, resume := Pass(text, tables, it, parser);
      match turn {
        case Found(end) =>
          return Some(Word(houseNumber.begin, end));
        case Stop =>
          it := resume;
        case _ =>
          return None;
      }
    }
    if |text| == 0 {
      EmptyTextHasNone(text, tables);
    }
    return None;
  }

  lemma EmptyTextHasNone(text: String16, tables: Tables)
    requires text == []
    ensures NoPlainFirst(text, tables)
  {
  }

  /** One pass: the next house number, and the search from there. Every pass starts behind the one before. */
  method Pass(text: String16, tables: Tables, it: nat, parser: HouseNumberParser) returns (turn: Turn, houseNumber: Word, resume: nat)
    requires CanResume(text, tables, it) && WellFormedTables(tables)
    requires parser.text == text && parser.whitespace == tables.whitespace
    modifies parser
    ensures turn != GoOn
    ensures turn.Found? ==> houseNumber.begin < turn.end <= |text| && AddressIn(text, tables, Word(houseNumber.begin, turn.end))
    ensures turn == Stop ==> it < resume && CanResume(text, tables, resume)
    ensures it == 0 ==> PlainIsReported(text, tables, Outcome(houseNumber, turn)) && (!turn.Found? ==> NoPlainFirst(text, tables))
  {
    resume, houseNumber := 0, Word(0, 0);
    var number := parser.Parse(it, |text|);
    if number.None? {
      if it == 0 {
        NoNumberNoPlain(text, tables);
      }
      return Fail, houseNumber, 0;
    }
    houseNumber := number.value;
    FoundNumberShape(text, tables.whitespace, it, |text|, houseNumber);
    turn, resume := ScanFrom(text, tables, houseNumber, parser);
    if it == 0 {
      FirstPassDecides(text, tables, houseNumber, turn);
    }
    if turn.Found? {
      AddressFound(text, tables, it, houseNumber, turn.end);
    }
  }

  lemma AddressFound(text: String16, tables: Tables, it: nat, houseNumber: Word, end: nat)
    requires CanResume(text, tables, it) && IsFirstRun(text, tables.whitespace, it, |text|, houseNumber) && houseNumber.Within(text)
    requires WellFormedTables(tables)
    requires EndsAddress(Source(text, tables, houseNumber), end)
    ensures houseNumber.begin < end <= |text| && AddressIn(text, tables, Word(houseNumber.begin, end))
  {
    var s := Source(text, tables, houseNumber);
    var k, m :| IsAddress(s, k, m, end);
    AddressMeans(s, k, m, end);
    FoundIsLeftmostNumeral(text, tables.whitespace, it, |text|, houseNumber);
    AddressIsAStretch(s, it, k, m, end);
    NumberHasLeftBoundary(s, it);
    assert IsAddressFrom(s, it, Word(houseNumber.begin, end));
  }
}
