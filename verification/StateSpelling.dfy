/** What it means that a state stands at a word, without the lookup that finds it. */
module StateSpelling {
  import opened AddressText
  import opened Options
  import opened HouseNumbers
  import opened AddressWords
  import opened StateNames

  predicate IsLetter(c: Code) {
    'a' as int <= c <= 'z' as int || 'A' as int <= c <= 'Z' as int
  }

  predicate IsTwoLetters(word: seq<Code>) {
    |word| == 2 && IsLetter(word[0]) && IsLetter(word[1])
  }

  /** The words from one to another, in lower case and with single spaces. */
  function Phrase(s: Source, k: nat, last: nat): seq<Code>
    requires s.Valid() && k <= last
    decreases last - k
  {
    if k == last then Lower(s.Text(k)) else Lower(s.Text(k)) + [' ' as int] + Phrase(s, k + 1, last)
  }

  /** The words are the counted part of a name. */
  predicate IsSpelled(s: Source, entry: StateName, k: nat, last: nat)
    requires s.Valid()
  {
    k <= last && entry.length <= |entry.name| && Phrase(s, k, last) == entry.name[..entry.length]
  }

  lemma {:induction false} PhraseIsJoined(s: Source, k: nat, last: nat)
    requires s.Valid() && k <= last
    ensures Phrase(s, k, last) == Joined(s, k, last)
    decreases last - k
  {
    if k < last {
      PhraseIsJoined(s, k + 1, last);
    }
  }

  /** The first name of a list that stands at a word is entry `i`. */
  ghost predicate NameStands(s: Source, names: seq<StateName>, k: nat, m: StateMatch, i: nat)
    requires s.Valid()
  {
    && i < |names| && IsSpelled(s, names[i], k, m.last) && names[i].stateIndex == m.index
    && forall j, last: nat | 0 <= j < i :: !IsSpelled(s, names[j], k, last)
  }

  /** Two letters are a state when they are a known code; other words when they begin a name listed under their first letter. */
  ghost predicate StateStands(s: Source, k: nat, m: StateMatch)
    requires s.Valid()
  {
    var word := s.Text(k);
    if IsTwoLetters(word)
    then
      var code := (ToLowerASCII(word[0]), ToLowerASCII(word[1]));
      m.last == k && code in s.tables.stateCodes && m.index == s.tables.stateCodes[code]
    else
      word != [] && ToLowerASCII(word[0]) in s.tables.stateNames
      && exists i :: NameStands(s, s.tables.stateNames[ToLowerASCII(word[0])], k, m, i)
  }

  // ----- The lookup finds just that -----

  /** A stretch of a name that is a front, a space and the rest. */
  lemma SplitStretch(name: seq<Code>, pos: nat, length: nat, front: seq<Code>, back: seq<Code>)
    requires pos <= length <= |name| && front + [SPACE] + back == name[pos..length]
    ensures var after := pos + |front|;
      after < length && name[pos..after] == front && name[after] == SPACE && name[after + 1..length] == back
  {
    var whole := name[pos..length];
    assert whole[..|front|] == front && whole[|front|] == SPACE && whole[|front| + 1..] == back;
  }

  /** A name does not stop counting just behind a space. */
  lemma CountedGoesOn(entry: StateName, after: nat)
    requires WellFormedName(entry) && SpaceAt(entry.name, after) && after < entry.length
    ensures after + 1 < entry.length
  {
    assert !SpaceAt(entry.name, after + 1);
  }

  /** A word that begins the rest of a name is a part of it, and the rest goes on behind the next space. */
  lemma FirstPart(s: Source, entry: StateName, k: nat, pos: nat, last: nat)
    requires s.Valid() && WellFormedName(entry) && k < last && pos < entry.length && Joined(s, k, last) == entry.name[pos..entry.length]
    ensures IsNamePart(s.Text(k), entry.name, pos)
    ensures var next := pos + |s.Text(k)| + 1;
      next < entry.length && Joined(s, k + 1, last) == entry.name[next..entry.length]
  {
    SplitStretch(entry.name, pos, entry.length, Lower(s.Text(k)), Joined(s, k + 1, last));
    CountedGoesOn(entry, pos + |s.Text(k)|);
  }

  lemma LastPart(s: Source, entry: StateName, k: nat, pos: nat)
    requires s.Valid() && WellFormedName(entry) && pos < entry.length && Lower(s.Text(k)) == entry.name[pos..entry.length]
    ensures IsNamePart(s.Text(k), entry.name, pos) && pos + |s.Text(k)| == entry.length
  {
  }

  lemma NameGoesOnBehind(s: Source, entry: StateName, k: nat, pos: nat, next: nat)
    requires s.Valid() && pos < next < entry.length && next == pos + |s.Text(k)| + 1 && IsNamePart(s.Text(k), entry.name, pos)
    ensures NameEnd(s, entry, k, pos) == NameEnd(s, entry, k + 1, next)
  {
    NameEndStep(s, entry, k, pos);
  }

  lemma NameIsOver(s: Source, entry: StateName, k: nat, pos: nat)
    requires s.Valid() && pos < entry.length == pos + |s.Text(k)| && IsNamePart(s.Text(k), entry.name, pos)
    ensures NameEnd(s, entry, k, pos) == Some(k)
  {
    NameEndStep(s, entry, k, pos);
  }

  /** One word further. */
  lemma NextPart(s: Source, entry: StateName, k: nat, pos: nat, last: nat) returns (next: nat)
    requires s.Valid() && WellFormedName(entry) && k < last && pos < entry.length && Joined(s, k, last) == entry.name[pos..entry.length]
    ensures next < entry.length && Joined(s, k + 1, last) == entry.name[next..entry.length]
    ensures NameEnd(s, entry, k, pos) == NameEnd(s, entry, k + 1, next)
  {
    FirstPart(s, entry, k, pos, last);
    next := pos + |s.Text(k)| + 1;
    NameGoesOnBehind(s, entry, k, pos, next);
  }

  lemma OnlyPart(s: Source, entry: StateName, k: nat, pos: nat)
    requires s.Valid() && WellFormedName(entry) && pos < entry.length && Joined(s, k, k) == entry.name[pos..entry.length]
    ensures NameEnd(s, entry, k, pos) == Some(k)
  {
    LastPart(s, entry, k, pos);
    NameIsOver(s, entry, k, pos);
  }

  lemma {:induction false} SpelledIsFound(s: Source, entry: StateName, k: nat, pos: nat, last: nat)
    requires s.Valid() && WellFormedName(entry) && k <= last && pos < entry.length && Joined(s, k, last) == entry.name[pos..entry.length]
    ensures NameEnd(s, entry, k, pos) == Some(last)
    decreases last - k
  {
    if k < last {
      var next := NextPart(s, entry, k, pos, last);
      SpelledIsFound(s, entry, k + 1, next, last);
    } else {
      OnlyPart(s, entry, k, pos);
    }
  }

  /** The words that are found are those that spell the name; the first of them is as long as the table says. */
  lemma FoundIsSpelled(s: Source, entry: StateName, k: nat, last: nat)
    requires s.Valid() && k > 0 && WellFormedName(entry) && CountsFirstWord(entry) && SPACE in s.tables.whitespace
    ensures NameEnd(s, entry, k, 0) == Some(last) <==> IsSpelled(s, entry, k, last)
    ensures IsSpelled(s, entry, k, last) ==> Applies(entry, |s.Text(k)|)
  {
    assert entry.name[..entry.length] == entry.name[0..entry.length];
    if k <= last {
      PhraseIsJoined(s, k, last);
    }
    if NameEnd(s, entry, k, 0) == Some(last) {
      NameEndIsJoined(s, entry, k, 0, last);
    }
    if IsSpelled(s, entry, k, last) {
      SpelledIsFound(s, entry, k, 0, last);
      if k < last {
        FirstPart(s, entry, k, 0, last);
      }
      FirstWordIsRight(s, entry, k);
    }
  }

  lemma FirstWordIsRight(s: Source, entry: StateName, k: nat)
    requires s.Valid() && k > 0 && CountsFirstWord(entry) && SPACE in s.tables.whitespace && IsNamePart(s.Text(k), entry.name, 0)
    ensures |s.Text(k)| == entry.firstWordLength
  {
    var word := s.Text(k);
    WordHasNoSpace(s, k);
    assert forall i | 0 <= i < |word| :: entry.name[i] == entry.name[0..|word|][i] == Lower(word)[i] != SPACE;
  }

  lemma {:induction false} FirstNameStands(s: Source, names: seq<StateName>, k: nat, m: StateMatch)
    requires s.Valid() && k > 0 && SPACE in s.tables.whitespace
    requires ListsFirstWords(names) && forall i | 0 <= i < |names| :: WellFormedName(names[i])
    ensures FirstName(s, names, k) == Some(m) <==> exists i :: NameStands(s, names, k, m, i)
    decreases |names|
  {
    if names != [] {
      forall last: nat ensures NameEnd(s, names[0], k, 0) == Some(last) <==> IsSpelled(s, names[0], k, last)
                       ensures IsSpelled(s, names[0], k, last) ==> Applies(names[0], |s.Text(k)|) {
        FoundIsSpelled(s, names[0], k, last);
      }
      FirstNameStands(s, names[1..], k, m);
      if last: nat :| IsSpelled(s, names[0], k, last) {
        assert forall i | NameStands(s, names, k, m, i) :: i == 0;
        if FirstName(s, names, k) == Some(m) {
          assert NameStands(s, names, k, m, 0);
        }
      } else {
        OneNameFurther(s, names, k, m);
      }
    }
  }

  lemma OneNameFurther(s: Source, names: seq<StateName>, k: nat, m: StateMatch)
    requires s.Valid() && names != [] && forall last: nat :: !IsSpelled(s, names[0], k, last)
    ensures (exists i :: NameStands(s, names, k, m, i)) <==> (exists i :: NameStands(s, names[1..], k, m, i))
  {
    if i: nat :| NameStands(s, names, k, m, i) {
      assert i > 0 ==> names[i] == names[1..][i - 1];
      assert NameStands(s, names[1..], k, m, i - 1);
    }
    if i: nat :| NameStands(s, names[1..], k, m, i) {
      assert names[i + 1] == names[1..][i];
      forall j: nat, last: nat | 0 <= j < i + 1 ensures !IsSpelled(s, names[j], k, last) {
        assert j > 0 ==> names[j] == names[1..][j - 1];
      }
      assert NameStands(s, names, k, m, i + 1);
    }
  }

  /** A state is found at a word exactly when it stands there: no letter, code or name of the tables is left out. */
  lemma StateIsFoundIff(s: Source, k: nat, m: StateMatch)
    requires s.Valid() && k > 0 && WellFormedTables(s.tables)
    ensures StateAt(s, k) == Some(m) <==> StateStands(s, k, m)
  {
    var word := s.Text(k);
    if !IsTwoLetters(word) && word != [] && ToLowerASCII(word[0]) in s.tables.stateNames {
      var names := s.tables.stateNames[ToLowerASCII(word[0])];
      FirstNameStands(s, names, k, m);
      forall i: nat | NameStands(s, names, k, m, i) ensures |word| >= 2 {
        FoundIsSpelled(s, names[i], k, m.last);
      }
    }
  }
}
