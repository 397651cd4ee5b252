/**
 Finding a state name or code at a word. The word list is filled from the tokenizer only as far as
 a name needs; the specification reads the words of the text directly.
 */
module StateNames {
  import opened AddressText
  import opened Options
  import opened HouseNumbers
  import opened AddressWords

  /** The position of a state's last word in the word list, and the state. */
  datatype StateMatch = StateMatch(last: nat, index: nat)

  /** The word is the part of a name that starts at a position and ends at a space or the name's end. */
  predicate IsNamePart(word: seq<Code>, name: seq<Code>, pos: nat) {
    && pos + |word| <= |name|
    && Lower(word) == name[pos..pos + |word|]
    && (pos + |word| == |name| || name[pos + |word|] == SPACE)
  }

  /** A text and the first of its words that matters. */
  datatype Source = Source(text: String16, tables: Tables, first: Word)
  {
    predicate Valid() {
      first.Within(text)
    }

    function WordOf(k: nat): (word: Word)
      requires Valid()
      ensures word.Within(text)
    {
      Nth(text, Delims(tables), first, k)
    }

    function Text(k: nat): (word: seq<Code>)
      requires Valid()
      ensures |word| == WordOf(k).Length()
    {
      TextOf(text, WordOf(k))
    }
  }

  /** The last word of a name, when the words from `k` on are what it consists of from `pos` on. */
  function NameEnd(s: Source, entry: StateName, k: nat, pos: nat): (last: Option<nat>)
    requires s.Valid() && pos < entry.length
    ensures last.Some? ==> k <= last.value
    decreases entry.length - pos
  {
    var next := pos + |s.Text(k)| + 1;
    if !IsNamePart(s.Text(k), entry.name, pos) then None
    else if next >= entry.length then Some(k)
    else NameEnd(s, entry, k + 1, next)
  }

  lemma NameEndStep(s: Source, entry: StateName, k: nat, pos: nat)
    requires s.Valid() && pos < entry.length
    ensures var next := pos + |s.Text(k)| + 1;
      NameEnd(s, entry, k, pos) == if !IsNamePart(s.Text(k), entry.name, pos) then None
                                   else if next >= entry.length then Some(k) else NameEnd(s, entry, k + 1, next)
  {
  }

  predicate Applies(entry: StateName, length: nat) {
    entry.firstWordLength == length && entry.length > 0
  }

  function FirstName(s: Source, names: seq<StateName>, k: nat): Option<StateMatch>
    requires s.Valid()
  {
    if names == [] then None
    else if Applies(names[0], |s.Text(k)|) && NameEnd(s, names[0], k, 0).Some?
    then Some(StateMatch(NameEnd(s, names[0], k, 0).value, names[0].stateIndex))
    else FirstName(s, names[1..], k)
  }

  const LAST_LETTER: Code := 0x77

  predicate IsCodeShaped(word: seq<Code>) {
    |word| == 2 && IsAsciiAlpha(word[1])
  }

  /** The state that starts at a word: its code, or else the first of the names that fit. */
  function StateAt(s: Source, k: nat): Option<StateMatch>
    requires s.Valid()
  {
    var word := s.Text(k);
    if |word| < 2 || !IsAsciiAlpha(word[0]) || ToLowerASCII(word[0]) > LAST_LETTER then None
    else
      var letter := ToLowerASCII(word[0]);
      if IsCodeShaped(word) then
        var code := (letter, ToLowerASCII(word[1]));
        if code in s.tables.stateCodes then Some(StateMatch(k, s.tables.stateCodes[code])) else None
      else if letter in s.tables.stateNames then FirstName(s, s.tables.stateNames[letter], k)
      else None
  }

  // ----- How far a lookup reads -----

  function Max(a: nat, b: nat): nat {
    if a < b then b else a
  }

  /** The last word a name is compared with. */
  function NameReads(s: Source, entry: StateName, k: nat, pos: nat): (last: nat)
    requires s.Valid() && pos < entry.length
    ensures k <= last
    decreases entry.length - pos
  {
    var next := pos + |s.Text(k)| + 1;
    if !IsNamePart(s.Text(k), entry.name, pos) || next >= entry.length then k else NameReads(s, entry, k + 1, next)
  }

  function NamesRead(s: Source, names: seq<StateName>, k: nat): (last: nat)
    requires s.Valid()
    ensures k <= last
  {
    if names == [] then k
    else if !Applies(names[0], |s.Text(k)|) then NamesRead(s, names[1..], k)
    else if NameEnd(s, names[0], k, 0).Some? then NameReads(s, names[0], k, 0)
    else Max(NameReads(s, names[0], k, 0), NamesRead(s, names[1..], k))
  }

  /** Looking up the names from `i` on with a list of so many words: what is found, and how long the list is then. */
  function Lookup(s: Source, names: seq<StateName>, i: nat, k: nat, length: nat): (Option<StateMatch>, nat)
    requires s.Valid() && i <= |names|
    decreases |names| - i
  {
    if i == |names| then (None, length)
    else if !Applies(names[i], |s.Text(k)|) then Lookup(s, names, i + 1, k, length)
    else
      var longer := Max(length, NameReads(s, names[i], k, 0) + 1);
      if NameEnd(s, names[i], k, 0).Some? then (Some(StateMatch(NameEnd(s, names[i], k, 0).value, names[i].stateIndex)), longer)
      else Lookup(s, names, i + 1, k, longer)
  }

  lemma LookupStep(s: Source, names: seq<StateName>, i: nat, k: nat, length: nat)
    requires s.Valid() && i < |names| && WellFormedName(names[i])
    ensures var found, longer := NameEnd(s, names[i], k, 0), Max(length, NameReads(s, names[i], k, 0) + 1);
      Lookup(s, names, i, k, length)
      == if names[i].firstWordLength != |s.Text(k)| then Lookup(s, names, i + 1, k, length)
         else if found.Some? then (Some(StateMatch(found.value, names[i].stateIndex)), longer)
         else Lookup(s, names, i + 1, k, longer)
  {
  }

  lemma {:induction false} LookupIsFirst(s: Source, names: seq<StateName>, i: nat, k: nat, length: nat)
    requires s.Valid() && i <= |names| && k < length
    ensures Lookup(s, names, i, k, length) == (FirstName(s, names[i..], k), Max(length, NamesRead(s, names[i..], k) + 1))
    decreases |names| - i
  {
    if i < |names| {
      assert names[i..][0] == names[i] && names[i..][1..] == names[i + 1..];
      LookupIsFirst(s, names, i + 1, k, length);
      if Applies(names[i], |s.Text(k)|) {
        LookupIsFirst(s, names, i + 1, k, Max(length, NameReads(s, names[i], k, 0) + 1));
      }
    }
  }

  function StateReads(s: Source, k: nat): (last: nat)
    requires s.Valid()
    ensures k <= last
  {
    var word := s.Text(k);
    if |word| < 2 || !IsAsciiAlpha(word[0]) || ToLowerASCII(word[0]) > LAST_LETTER || IsCodeShaped(word) then k
    else if ToLowerASCII(word[0]) in s.tables.stateNames then NamesRead(s, s.tables.stateNames[ToLowerASCII(word[0])], k)
    else k
  }

  /** No name goes on with an empty word: a lookup that reaches one ends there. */
  lemma {:induction false} NameStopsAtEmpty(s: Source, entry: StateName, k: nat, pos: nat, n: nat)
    requires s.Valid() && pos < entry.length && WellFormedName(entry) && SPACE in s.tables.whitespace
    requires k > 0 && PartStart(entry.name, pos) && |s.Text(n)| == 0
    requires k <= n <= NameReads(s, entry, k, pos)
    ensures n == NameReads(s, entry, k, pos)
    decreases entry.length - pos
  {
    var next := pos + |s.Text(k)| + 1;
    if IsNamePart(s.Text(k), entry.name, pos) && next < entry.length {
      PartIsNameWord(s, entry, k, pos);
      NameStopsAtEmpty(s, entry, k + 1, next, n);
    }
  }

  /** What is read lies within the first empty word. */
  lemma {:induction false} EmptyBoundsReads(s: Source, names: seq<StateName>, k: nat, n: nat)
    requires s.Valid() && SPACE in s.tables.whitespace && forall i | 0 <= i < |names| :: WellFormedName(names[i])
    requires 0 < k <= n && |s.Text(n)| == 0
    ensures NamesRead(s, names, k) <= n
    decreases |names|
  {
    if names != [] {
      EmptyBoundsReads(s, names[1..], k, n);
      if Applies(names[0], |s.Text(k)|) && NameReads(s, names[0], k, 0) > n {
        NameStopsAtEmpty(s, names[0], k, 0, n);
      }
    }
  }

  lemma StateStopsAtEmpty(s: Source, k: nat, n: nat)
    requires s.Valid() && WellFormedTables(s.tables) && 0 < k <= n <= StateReads(s, k) && |s.Text(n)| == 0
    ensures n == StateReads(s, k)
  {
    var word := s.Text(k);
    if k < n {
      EmptyBoundsReads(s, s.tables.stateNames[ToLowerASCII(word[0])], k, n);
    }
  }

  // ----- What a match means -----

  /** The words from one to another, in lower case, with a space between each two. */
  function Joined(s: Source, k: nat, last: nat): seq<Code>
    requires s.Valid() && k <= last
    decreases last - k
  {
    if k == last then Lower(s.Text(k)) else Lower(s.Text(k)) + [SPACE] + Joined(s, k + 1, last)
  }

  /** Where a part of a name may start. */
  predicate PartStart(name: seq<Code>, pos: nat) {
    pos < |name| && (pos == 0 || SpaceAt(name, pos - 1))
  }

  /** A part is a whole word of the name, and it ends inside the counted stretch or with it. */
  lemma PartIsNameWord(s: Source, entry: StateName, k: nat, pos: nat)
    requires s.Valid() && pos < entry.length && WellFormedName(entry) && SPACE in s.tables.whitespace
    requires k > 0 && PartStart(entry.name, pos) && IsNamePart(s.Text(k), entry.name, pos)
    ensures 0 < |s.Text(k)| <= MAX_NAME_WORD_LENGTH
    ensures pos + |s.Text(k)| <= entry.length
    ensures pos + |s.Text(k)| < entry.length ==>
      SpaceAt(entry.name, pos + |s.Text(k)|) && PartStart(entry.name, pos + |s.Text(k)| + 1) && pos + |s.Text(k)| + 1 < entry.length
  {
    var word := s.Text(k);
    WordHasNoSpace(s, k);
    var after := pos + |word|;
    assert NoSpaceIn(entry.name, pos, after) by {
      forall i | pos <= i < after ensures entry.name[i] != SPACE {
        assert entry.name[i] == entry.name[pos..after][i - pos] == Lower(word)[i - pos];
      }
    }
    assert after < |entry.name| ==> SpaceAt(entry.name, after);
    assert !SpaceAt(entry.name, pos);
    assert entry.length < |entry.name| ==> SpaceAt(entry.name, entry.length);
  }

  lemma SplitAtSpace(name: seq<Code>, from: nat, at: nat, limit: nat)
    requires from <= at < limit <= |name| && SpaceAt(name, at)
    ensures name[from..limit] == name[from..at] + [SPACE] + name[at + 1..limit]
  {
  }

  predicate FitsInName(s: Source, k: nat)
    requires s.Valid()
  {
    0 < |s.Text(k)| <= MAX_NAME_WORD_LENGTH
  }

  ghost predicate NameGoesOn(s: Source, entry: StateName, k: nat, pos: nat)
    requires s.Valid() && pos < entry.length
  {
    && WellFormedName(entry) && SPACE in s.tables.whitespace && k > 0
    && PartStart(entry.name, pos) && NameEnd(s, entry, k, pos).Some?
  }

  /** A name goes on with the word's part, and then behind a space or not at all. */
  lemma NamePartStep(s: Source, entry: StateName, k: nat, pos: nat)
    requires s.Valid() && pos < entry.length && NameGoesOn(s, entry, k, pos)
    ensures var next := pos + |s.Text(k)| + 1;
      && FitsInName(s, k)
      && next - 1 <= entry.length <= |entry.name| && Lower(s.Text(k)) == entry.name[pos..next - 1]
      && (next < entry.length ==> SpaceAt(entry.name, next - 1) && NameGoesOn(s, entry, k + 1, next)
                                  && NameEnd(s, entry, k, pos) == NameEnd(s, entry, k + 1, next))
      && (next >= entry.length ==> next - 1 == entry.length && NameEnd(s, entry, k, pos) == Some(k))
  {
    PartIsNameWord(s, entry, k, pos);
    NameEndStep(s, entry, k, pos);
  }

  lemma {:induction false} NameWordsAreShort(s: Source, entry: StateName, k: nat, pos: nat, last: nat)
    requires s.Valid() && pos < entry.length && NameGoesOn(s, entry, k, pos) && NameEnd(s, entry, k, pos) == Some(last)
    ensures forall j | k <= j <= last :: FitsInName(s, j)
    decreases entry.length - pos
  {
    NamePartStep(s, entry, k, pos);
    var next := pos + |s.Text(k)| + 1;
    if next < entry.length {
      NameWordsAreShort(s, entry, k + 1, next, last);
    }
  }

  lemma {:induction false} NameEndIsJoined(s: Source, entry: StateName, k: nat, pos: nat, last: nat)
    requires s.Valid() && pos < entry.length && NameGoesOn(s, entry, k, pos) && NameEnd(s, entry, k, pos) == Some(last)
    ensures entry.length <= |entry.name| && Joined(s, k, last) == entry.name[pos..entry.length]
    decreases entry.length - pos
  {
    var next := pos + |s.Text(k)| + 1;
    if next >= entry.length {
      NameEndsHere(s, entry, k, pos, last);
    } else {
      NamePartStep(s, entry, k, pos);
      NameEndIsJoined(s, entry, k + 1, next, last);
      JoinsOn(s, entry.name, entry.length, k, pos, next, last);
    }
  }

  /** The last word of a name. */
  lemma NameEndsHere(s: Source, entry: StateName, k: nat, pos: nat, last: nat)
    requires s.Valid() && pos < entry.length && NameGoesOn(s, entry, k, pos) && NameEnd(s, entry, k, pos) == Some(last)
    requires pos + |s.Text(k)| + 1 >= entry.length
    ensures entry.length <= |entry.name| && Joined(s, k, last) == entry.name[pos..entry.length]
  {
    NamePartStep(s, entry, k, pos);
  }

  lemma JoinsOn(s: Source, name: seq<Code>, length: nat, k: nat, pos: nat, next: nat, last: nat)
    requires s.Valid() && k < last && pos < next <= length <= |name| && SpaceAt(name, next - 1)
    requires Lower(s.Text(k)) == name[pos..next - 1] && Joined(s, k + 1, last) == name[next..length]
    ensures Joined(s, k, last) == name[pos..length]
  {
    JoinedStep(s, k, last, name[pos..next - 1], name[next..length]);
    SplitAtSpace(name, pos, next - 1, length);
  }

  lemma JoinedStep(s: Source, k: nat, last: nat, front: seq<Code>, back: seq<Code>)
    requires s.Valid() && k < last && Lower(s.Text(k)) == front && Joined(s, k + 1, last) == back
    ensures Joined(s, k, last) == front + [SPACE] + back
  {
  }

  lemma WordHasNoSpace(s: Source, k: nat)
    requires s.Valid() && k > 0 && SPACE in s.tables.whitespace
    ensures forall i | 0 <= i < |s.Text(k)| :: s.Text(k)[i] != SPACE && ToLowerASCII(s.Text(k)[i]) != SPACE
  {
    var previous := Nth(s.text, Delims(s.tables), s.first, k - 1);
    assert s.WordOf(k) == WordAfter(s.text, Delims(s.tables), previous);
  }

  ghost predicate IsNamedBy(s: Source, k: nat, m: StateMatch, entry: StateName)
    requires s.Valid() && k <= m.last
  {
    && entry.stateIndex == m.index
    && entry.firstWordLength == |s.Text(k)|
    && entry.length <= |entry.name|
    && Joined(s, k, m.last) == entry.name[..entry.length]
  }

  /** A match is a known two-letter code, or the words from `k` on spell out a known name. */
  ghost predicate Spells(s: Source, k: nat, m: StateMatch)
    requires s.Valid()
  {
    var word := s.Text(k);
    || (m.last == k && |word| == 2
        && (ToLowerASCII(word[0]), ToLowerASCII(word[1])) in s.tables.stateCodes.Keys
        && m.index == s.tables.stateCodes[(ToLowerASCII(word[0]), ToLowerASCII(word[1]))])
    || (k <= m.last && exists c, i :: c in s.tables.stateNames && 0 <= i < |s.tables.stateNames[c]|
                                      && IsNamedBy(s, k, m, s.tables.stateNames[c][i]))
  }

  lemma {:induction false} FirstNameIsListed(s: Source, names: seq<StateName>, k: nat) returns (i: nat)
    requires s.Valid() && k > 0 && FirstName(s, names, k).Some? && SPACE in s.tables.whitespace
    requires forall j | 0 <= j < |names| :: WellFormedName(names[j])
    ensures i < |names|
    ensures var m := FirstName(s, names, k).value;
      && k <= m.last && IsNamedBy(s, k, m, names[i])
      && forall j | k <= j <= m.last :: FitsInName(s, j)
  {
    if Applies(names[0], |s.Text(k)|) && NameEnd(s, names[0], k, 0).Some? {
      i := 0;
      var last := NameEnd(s, names[0], k, 0).value;
      NameEndIsJoined(s, names[0], k, 0, last);
      NameWordsAreShort(s, names[0], k, 0, last);
      assert names[0].name[..names[0].length] == names[0].name[0..names[0].length];
    } else {
      var rest := FirstNameIsListed(s, names[1..], k);
      i := rest + 1;
    }
  }

  lemma MatchesSpell(s: Source, k: nat)
    requires s.Valid() && k > 0 && WellFormedTables(s.tables) && StateAt(s, k).Some?
    ensures var m := StateAt(s, k).value;
      && k <= m.last && Spells(s, k, m) && m.index < |s.tables.zipRanges|
      && forall j | k <= j <= m.last :: 0 < |s.Text(j)| <= MAX_NAME_WORD_LENGTH
  {
    var word := s.Text(k);
    if !IsCodeShaped(word) {
      var i := FirstNameIsListed(s, s.tables.stateNames[ToLowerASCII(word[0])], k);
      var m := StateAt(s, k).value;
      forall j | k <= j <= m.last ensures 0 < |s.Text(j)| <= MAX_NAME_WORD_LENGTH {
        assert FitsInName(s, j);
      }
    }
  }

  // ----- A name that is counted in part -----

  /** "rhode island", of which five characters count. */
  const RHODE_ISLAND: StateName :=
    StateName([0x72, 0x68, 0x6F, 0x64, 0x65, SPACE, 0x69, 0x73, 0x6C, 0x61, 0x6E, 0x64], 5, 5, 46)

  /** It is met exactly by the word "rhode", and its match ends there, whatever word follows. */
  lemma RhodeIslandIsCutShort(s: Source, k: nat)
    requires s.Valid()
    ensures WellFormedName(RHODE_ISLAND)
    ensures Applies(RHODE_ISLAND, |s.Text(k)|) && NameEnd(s, RHODE_ISLAND, k, 0).Some? <==> Lower(s.Text(k)) == ['r' as int, 'h' as int, 'o' as int, 'd' as int, 'e' as int]
    ensures Lower(s.Text(k)) == ['r' as int, 'h' as int, 'o' as int, 'd' as int, 'e' as int] ==> NameEnd(s, RHODE_ISLAND, k, 0) == Some(k)
  {
  }
}
