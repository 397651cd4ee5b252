/**
 Saving and restoring the navigation state: an exact pair of a writer and a reader over a stream
 of typed values, with a branch on the version of the format.
 */
module StateSerializer {
  import opened Options

  const AW_STATE_VERSION_INITIAL: int := 20130814
  const AW_STATE_VERSION_DATA_URL: int := 20151204
  const AW_STATE_VERSION: int := AW_STATE_VERSION_DATA_URL

  datatype Value =
    | UInt32(number: int)
    | Int(number: int)
    | Int64(number: int)
    | Bool(flag: bool)
    | Text(text: string)
    | Text16(text: string)
    | Data(text: string)

  datatype NavigationEntry = NavigationEntry(
    url: string,
    virtualUrl: string,
    referrerUrl: string,
    referrerPolicy: int,
    title: string,
    pageState: string,
    hasPostData: bool,
    originalRequestUrl: string,
    baseUrlForDataUrl: string,
    dataUrl: Option<string>,
    isOverridingUserAgent: bool,
    timestamp: int,
    httpStatusCode: int)

  const NEW_ENTRY := NavigationEntry("", "", "", 0, "", "", false, "", "", None, false, 0, 0)

  predicate IsSupportedVersion(version: int) {
    version == AW_STATE_VERSION_INITIAL || version == AW_STATE_VERSION_DATA_URL
  }

  // ----- The format -----

  function DataOf(entry: NavigationEntry): string {
    if entry.dataUrl.Some? then entry.dataUrl.value else ""
  }

  function EntryHead(entry: NavigationEntry): (values: seq<Value>)
    ensures |values| == 9
  {
    [Text(entry.url), Text(entry.virtualUrl), Text(entry.referrerUrl), Int(entry.referrerPolicy), Text16(entry.title),
     Text(entry.pageState), Bool(entry.hasPostData), Text(entry.originalRequestUrl), Text(entry.baseUrlForDataUrl)]
  }

  function EntryData(version: int, entry: NavigationEntry): seq<Value> {
    if version >= AW_STATE_VERSION_DATA_URL then [Data(DataOf(entry))] else []
  }

  function EntryTail(entry: NavigationEntry): (values: seq<Value>)
    ensures |values| == 3
  {
    [Bool(entry.isOverridingUserAgent), Int64(entry.timestamp), Int(entry.httpStatusCode)]
  }

  function EntryLength(version: int): nat {
    if version >= AW_STATE_VERSION_DATA_URL then 13 else 12
  }

  /** The length of a list of entries in the stream. */
  function Span(version: int, count: nat): nat {
    if count == 0 then 0 else EntryLength(version) + Span(version, count - 1)
  }

  function EntryValues(version: int, entry: NavigationEntry): (values: seq<Value>)
    ensures |values| == EntryLength(version)
  {
    EntryHead(entry) + EntryData(version, entry) + EntryTail(entry)
  }

  function EntriesValues(version: int, entries: seq<NavigationEntry>): seq<Value> {
    if entries == [] then [] else EntryValues(version, entries[0]) + EntriesValues(version, entries[1..])
  }

  function StateValues(version: int, entries: seq<NavigationEntry>, selected: int): seq<Value> {
    [UInt32(version), Int(|entries|), Int(selected)] + EntriesValues(version, entries)
  }

  /** What a round trip gives back: an empty data URL is no data URL, and the first version has none. */
  function Normal(version: int, entry: NavigationEntry): NavigationEntry {
    if version >= AW_STATE_VERSION_DATA_URL && DataOf(entry) != "" then entry else entry.(dataUrl := None)
  }

  function NormalAll(version: int, entries: seq<NavigationEntry>): (normal: seq<NavigationEntry>)
    ensures |normal| == |entries|
  {
    if entries == [] then [] else [Normal(version, entries[0])] + NormalAll(version, entries[1..])
  }

  /** The format of an entry: thirteen values, of which the first version has all but the data URL. */
  lemma FormatOfEntry(e: NavigationEntry)
    ensures EntryValues(20151204, e) == [
      Text(e.url), Text(e.virtualUrl), Text(e.referrerUrl), Int(e.referrerPolicy), Text16(e.title), Text(e.pageState),
      Bool(e.hasPostData), Text(e.originalRequestUrl), Text(e.baseUrlForDataUrl), Data(if e.dataUrl == None then "" else e.dataUrl.value),
      Bool(e.isOverridingUserAgent), Int64(e.timestamp), Int(e.httpStatusCode)]
    ensures EntryValues(20130814, e) == EntryValues(20151204, e)[..9] + EntryValues(20151204, e)[10..]
  {
  }

  // ----- What a stream stands for -----

  predicate HeadFits(values: seq<Value>) {
    && |values| >= 9
    && values[0].Text? && values[1].Text? && values[2].Text? && values[3].Int? && values[4].Text16?
    && values[5].Text? && values[6].Bool? && values[7].Text? && values[8].Text?
  }

  function HeadOf(values: seq<Value>): NavigationEntry
    requires HeadFits(values)
  {
    NEW_ENTRY.(url := values[0].text, virtualUrl := values[1].text, referrerUrl := values[2].text,
               referrerPolicy := values[3].number, title := values[4].text, pageState := values[5].text,
               hasPostData := values[6].flag, originalRequestUrl := values[7].text, baseUrlForDataUrl := values[8].text)
  }

  predicate DataFits(version: int, values: seq<Value>) {
    version >= AW_STATE_VERSION_DATA_URL ==> values != [] && values[0].Data?
  }

  function WithData(version: int, values: seq<Value>, entry: NavigationEntry): NavigationEntry
    requires DataFits(version, values)
  {
    if version >= AW_STATE_VERSION_DATA_URL && values[0].text != "" then entry.(dataUrl := Some(values[0].text)) else entry
  }

  predicate TailFits(values: seq<Value>) {
    |values| >= 3 && values[0].Bool? && values[1].Int64? && values[2].Int?
  }

  function WithTail(values: seq<Value>, entry: NavigationEntry): NavigationEntry
    requires TailFits(values)
  {
    entry.(isOverridingUserAgent := values[0].flag, timestamp := values[1].number, httpStatusCode := values[2].number)
  }

  predicate EntryFits(version: int, values: seq<Value>) {
    && HeadFits(values)
    && DataFits(version, values[9..])
    && TailFits(values[EntryLength(version) - 3..])
  }

  function EntryOf(version: int, values: seq<Value>): Option<NavigationEntry> {
    if EntryLength(version) <= |values| && EntryFits(version, values)
    then Some(WithTail(values[EntryLength(version) - 3..], WithData(version, values[9..], HeadOf(values))))
    else None
  }

  function EntriesOf(version: int, values: seq<Value>, count: nat): (entries: Option<seq<NavigationEntry>>)
    ensures entries.Some? ==> |entries.value| == count && Span(version, count) <= |values|
    decreases count
  {
    if count == 0 then Some([])
    else
      var first := EntryOf(version, values);
      if first.None? then None
      else
        var others := EntriesOf(version, values[EntryLength(version)..], count - 1);
        if others.None? then None else Some([first.value] + others.value)
  }

  datatype Restored = Restored(entries: seq<NavigationEntry>, selected: int, consumed: nat)

  /** The header, the counts and their checks, then the entries. */
  function StateOf(values: seq<Value>): Option<Restored> {
    if |values| < 3 || !values[0].UInt32? || !values[1].Int? || !values[2].Int? then None
    else if !IsSupportedVersion(values[0].number) then None
    else if values[1].number < 0 || values[2].number < -1 || values[2].number >= values[1].number then None
    else
      var entries := EntriesOf(values[0].number, values[3..], values[1].number);
      if entries.None? then None
      else Some(Restored(entries.value, values[2].number, 3 + Span(values[0].number, values[1].number)))
  }

  // ----- Writing and reading are inverse -----

  lemma EntryRoundTrip(version: int, entry: NavigationEntry, tail: seq<Value>)
    ensures EntryOf(version, EntryValues(version, entry) + tail) == Some(Normal(version, entry))
  {
    var values := EntryValues(version, entry) + tail;
    assert values[..9] == EntryHead(entry);
    assert forall i | 0 <= i < 9 :: values[i] == EntryHead(entry)[i];
    var at := EntryLength(version) - 3;
    assert forall i | 0 <= i < 3 :: values[at..][i] == EntryTail(entry)[i];
    if version >= AW_STATE_VERSION_DATA_URL {
      assert values[9..][0] == Data(DataOf(entry));
    }
  }

  /** Whatever the reader accepts is what the writer would have written for its result. */
  lemma EntryIsWhatWasWritten(version: int, values: seq<Value>)
    requires EntryOf(version, values).Some?
    ensures EntryValues(version, EntryOf(version, values).value) <= values
    ensures Normal(version, EntryOf(version, values).value) == EntryOf(version, values).value
  {
    var entry, length := EntryOf(version, values).value, EntryLength(version);
    assert EntryHead(entry) == values[..9];
    assert EntryData(version, entry) == values[9..length - 3];
    var tail := values[length - 3..];
    assert EntryTail(entry) == [tail[0], tail[1], tail[2]] == values[length - 3..length];
    assert EntryValues(version, entry) == values[..length];
  }

  lemma {:induction false} EntriesRoundTrip(version: int, entries: seq<NavigationEntry>, tail: seq<Value>)
    ensures EntriesOf(version, EntriesValues(version, entries) + tail, |entries|) == Some(NormalAll(version, entries))
    ensures |EntriesValues(version, entries)| == Span(version, |entries|)
  {
    if entries != [] {
      var first, others := EntryValues(version, entries[0]), EntriesValues(version, entries[1..]);
      EntriesRoundTrip(version, entries[1..], tail);
      EntryRoundTrip(version, entries[0], others + tail);
      assert EntriesValues(version, entries) + tail == first + (others + tail);
      assert (first + (others + tail))[EntryLength(version)..] == others + tail;
    }
  }

  lemma EntriesValuesCons(version: int, first: NavigationEntry, others: seq<NavigationEntry>)
    ensures EntriesValues(version, [first] + others) == EntryValues(version, first) + EntriesValues(version, others)
  {
    assert ([first] + others)[1..] == others;
  }

  lemma PrefixesJoin(front: seq<Value>, back: seq<Value>, values: seq<Value>, cut: nat)
    requires |front| <= |values| && front == values[..|front|] && |front| + cut <= |values|
    requires back == values[|front|..][..cut]
    ensures front + back == values[..|front| + cut]
  {
  }

  lemma {:induction false} EntriesAreWhatWasWritten(version: int, values: seq<Value>, count: nat)
    requires EntriesOf(version, values, count).Some?
    ensures EntriesValues(version, EntriesOf(version, values, count).value) == values[..Span(version, count)]
    decreases count
  {
    if count > 0 {
      var length := EntryLength(version);
      var first, others := EntryOf(version, values).value, EntriesOf(version, values[length..], count - 1).value;
      EntryIsWhatWasWritten(version, values);
      EntriesAreWhatWasWritten(version, values[length..], count - 1);
      EntriesValuesCons(version, first, others);
      PrefixesJoin(EntryValues(version, first), EntriesValues(version, others), values, Span(version, count - 1));
    }
  }

  predicate Selectable(entries: seq<NavigationEntry>, selected: int) {
    -1 <= selected < |entries|
  }

  /** Behind a good header the entries decide. */
  lemma HeaderThenEntries(version: int, count: nat, selected: int, rest: seq<Value>)
    requires IsSupportedVersion(version) && -1 <= selected < count && EntriesOf(version, rest, count).Some?
    ensures StateOf([UInt32(version), Int(count), Int(selected)] + rest)
         == Some(Restored(EntriesOf(version, rest, count).value, selected, 3 + Span(version, count)))
  {
    assert ([UInt32(version), Int(count), Int(selected)] + rest)[3..] == rest;
  }

  lemma Regrouped(header: seq<Value>, entries: seq<Value>, tail: seq<Value>)
    ensures header + entries + tail == header + (entries + tail)
  {
  }

  /** Restoring what was written gives the entries back, and takes no more than was written. */
  lemma StateRoundTrip(version: int, entries: seq<NavigationEntry>, selected: int, tail: seq<Value>)
    requires IsSupportedVersion(version) && Selectable(entries, selected)
    ensures StateOf(StateValues(version, entries, selected) + tail)
         == Some(Restored(NormalAll(version, entries), selected, |StateValues(version, entries, selected)|))
  {
    Regrouped([UInt32(version), Int(|entries|), Int(selected)], EntriesValues(version, entries), tail);
    EntriesRoundTrip(version, entries, tail);
    HeaderThenEntries(version, |entries|, selected, EntriesValues(version, entries) + tail);
  }

  /** What is written now and restored is there in full, but that an empty data URL is none; the first version had no data URLs. */
  lemma WhatIsRestored(entries: seq<NavigationEntry>, selected: int, tail: seq<Value>)
    requires Selectable(entries, selected)
    ensures var restored := StateOf(StateValues(20151204, entries, selected) + tail);
      && restored.Some? && restored.value.selected == selected && |restored.value.entries| == |entries|
      && forall i | 0 <= i < |entries| ::
           restored.value.entries[i] == if entries[i].dataUrl == Some("") then entries[i].(dataUrl := None) else entries[i]
    ensures var restored := StateOf(StateValues(20130814, entries, selected) + tail);
      && restored.Some? && |restored.value.entries| == |entries|
      && forall i | 0 <= i < |entries| :: restored.value.entries[i] == entries[i].(dataUrl := None)
  {
    StateRoundTrip(20151204, entries, selected, tail);
    StateRoundTrip(20130814, entries, selected, tail);
    forall i | 0 <= i < |entries|
      ensures NormalAll(20151204, entries)[i] == Normal(20151204, entries[i])
      ensures NormalAll(20130814, entries)[i] == Normal(20130814, entries[i])
    {
      NormalEach(20151204, entries, i);
      NormalEach(20130814, entries, i);
    }
  }

  lemma {:induction false} NormalEach(version: int, entries: seq<NavigationEntry>, i: nat)
    requires i < |entries|
    ensures NormalAll(version, entries)[i] == Normal(version, entries[i])
  {
    if i > 0 {
      NormalEach(version, entries[1..], i - 1);
    }
  }

  /** Whatever is restored begins with the very values the writer writes for it in some supported version. */
  lemma StateIsWhatWasWritten(values: seq<Value>)
    requires StateOf(values).Some?
    ensures var restored := StateOf(values).value;
      && restored.consumed <= |values|
      && values[0].UInt32? && IsSupportedVersion(values[0].number) && Selectable(restored.entries, restored.selected)
      && StateValues(values[0].number, restored.entries, restored.selected) == values[..restored.consumed]
  {
    var version, count := values[0].number, values[1].number;
    var restored := StateOf(values).value;
    EntriesAreWhatWasWritten(version, values[3..], count);
    assert values[..restored.consumed] == [values[0], values[1], values[2]] + values[3..][..Span(version, count)];
  }

  /** Of a written stream the reader takes everything, or nothing. */
  lemma NothingLessThanAll(version: int, entries: seq<NavigationEntry>, selected: int, values: seq<Value>)
    requires values <= StateValues(version, entries, selected) && StateOf(values).Some?
    ensures |StateValues(version, entries, selected)| == StateOf(values).value.consumed <= |values|
  {
    StateIsWhatWasWritten(values);
    EntriesRoundTrip(version, entries, []);
    EntriesRoundTrip(version, StateOf(values).value.entries, []);
    assert values[1] == StateValues(version, entries, selected)[1] == Int(|entries|);
  }

  /** A stream cut short anywhere is refused. */
  lemma CutShortIsRefused(version: int, entries: seq<NavigationEntry>, selected: int, length: nat)
    requires length < |StateValues(version, entries, selected)|
    ensures StateOf(StateValues(version, entries, selected)[..length]).None?
  {
    var cut := StateValues(version, entries, selected)[..length];
    if StateOf(cut).Some? {
      NothingLessThanAll(version, entries, selected, cut);
    }
  }

  /** An unsupported version or a selection outside the list is refused, whatever follows. */
  lemma BadHeaderIsRefused(values: seq<Value>)
    requires |values| >= 3 && values[0].UInt32? && values[1].Int? && values[2].Int?
    requires values[0].number !in {20130814, 20151204} || !(-1 <= values[2].number < values[1].number)
    ensures StateOf(values).None?
  {
  }

  // ----- The stream -----

  class Pickle {
    var values: seq<Value>

    method Write(value: Value) returns (ok: bool)
      modifies this
      ensures ok && values == old(values) + [value]
    {
      values := values + [value];
      ok := true;
    }
  }

  class PickleIterator {
    const values: seq<Value>
    var pos: nat

    constructor (values: seq<Value>)
      ensures this.values == values && pos == 0
    {
      this.values := values;
      pos := 0;
    }

    ghost predicate Valid()
      reads this
    {
      pos <= |values|
    }

    ghost function Rest(): seq<Value>
      requires Valid()
      reads this
    {
      values[pos..]
    }

    /** Takes the next value if it is of the kind asked for. */
    method Read(wanted: Value -> bool) returns (value: Option<Value>)
      requires Valid()
      modifies this`pos
      ensures Valid()
      ensures value.Some? <==> old(pos) < |values| && wanted(values[old(pos)])
      ensures value.Some? ==> value.value == values[old(pos)] && pos == old(pos) + 1
    {
      if pos == |values| || !wanted(values[pos]) {
        pos := |values|;
        return None;
      }
      value := Some(values[pos]);
      pos := pos + 1;
    }

    method ReadText() returns (value: Option<string>)
      requires Valid()
      modifies this`pos
      ensures Valid()
      ensures value.Some? <==> old(pos) < |values| && values[old(pos)].Text?
      ensures value.Some? ==> value.value == values[old(pos)].text && pos == old(pos) + 1
    {
      var read := Read((v: Value) => v.Text?);
      value := if read.Some? then Some(read.value.text) else None;
    }

    method ReadText16() returns (value: Option<string>)
      requires Valid()
      modifies this`pos
      ensures Valid()
      ensures value.Some? <==> old(pos) < |values| && values[old(pos)].Text16?
      ensures value.Some? ==> value.value == values[old(pos)].text && pos == old(pos) + 1
    {
      var read := Read((v: Value) => v.Text16?);
      value := if read.Some? then Some(read.value.text) else None;
    }

    method ReadData() returns (value: Option<string>)
      requires Valid()
      modifies this`pos
      ensures Valid()
      ensures value.Some? <==> old(pos) < |values| && values[old(pos)].Data?
      ensures value.Some? ==> value.value == values[old(pos)].text && pos == old(pos) + 1
    {
      var read := Read((v: Value) => v.Data?);
      value := if read.Some? then Some(read.value.text) else None;
    }

    method ReadInt() returns (value: Option<int>)
      requires Valid()
      modifies this`pos
      ensures Valid()
      ensures value.Some? <==> old(pos) < |values| && values[old(pos)].Int?
      ensures value.Some? ==> value.value == values[old(pos)].number && pos == old(pos) + 1
    {
      var read := Read((v: Value) => v.Int?);
      value := if read.Some? then Some(read.value.number) else None;
    }

    method ReadUInt32() returns (value: Option<int>)
      requires Valid()
      modifies this`pos
      ensures Valid()
      ensures value.Some? <==> old(pos) < |values| && values[old(pos)].UInt32?
      ensures value.Some? ==> value.value == values[old(pos)].number && pos == old(pos) + 1
    {
      var read := Read((v: Value) => v.UInt32?);
      value := if read.Some? then Some(read.value.number) else None;
    }

    method ReadInt64() returns (value: Option<int>)
      requires Valid()
      modifies this`pos
      ensures Valid()
      ensures value.Some? <==> old(pos) < |values| && values[old(pos)].Int64?
      ensures value.Some? ==> value.value == values[old(pos)].number && pos == old(pos) + 1
    {
      var read := Read((v: Value) => v.Int64?);
      value := if read.Some? then Some(read.value.number) else None;
    }

    method ReadBool() returns (value: Option<bool>)
      requires Valid()
      modifies this`pos
      ensures Valid()
      ensures value.Some? <==> old(pos) < |values| && values[old(pos)].Bool?
      ensures value.Some? ==> value.value == values[old(pos)].flag && pos == old(pos) + 1
    {
      var read := Read((v: Value) => v.Bool?);
      value := if read.Some? then Some(read.value.flag) else None;
    }
  }

  // ----- The writer -----

  method WriteHeaderToPickle(version: int, pickle: Pickle) returns (ok: bool)
    modifies pickle
    ensures ok && pickle.values == old(pickle.values) + [UInt32(version)]
  {
    ok := pickle.Write(UInt32(version));
  }

  method WriteHeadToPickle(entry: NavigationEntry, pickle: Pickle) returns (ok: bool)
    modifies pickle
    ensures ok && pickle.values == old(pickle.values) + EntryHead(entry)
  {
    ok := pickle.Write(Text(entry.url));
    if !ok { return; }
    ok := pickle.Write(Text(entry.virtualUrl));
    if !ok { return; }
    ok := pickle.Write(Text(entry.referrerUrl));
    if !ok { return; }
    ok := pickle.Write(Int(entry.referrerPolicy));
    if !ok { return; }
    ok := pickle.Write(Text16(entry.title));
    if !ok { return; }
    ok := pickle.Write(Text(entry.pageState));
    if !ok { return; }
    ok := pickle.Write(Bool(entry.hasPostData));
    if !ok { return; }
    ok := pickle.Write(Text(entry.originalRequestUrl));
    if !ok { return; }
    ok := pickle.Write(Text(entry.baseUrlForDataUrl));
  }

  method WriteNavigationEntryToPickle(version: int, entry: NavigationEntry, pickle: Pickle) returns (ok: bool)
    requires IsSupportedVersion(version)
    modifies pickle
    ensures ok && pickle.values == old(pickle.values) + EntryValues(version, entry)
  {
    ok := WriteHeadToPickle(entry, pickle);
    if !ok { return; }
    if version >= AW_STATE_VERSION_DATA_URL {
      ok := pickle.Write(Data(if entry.dataUrl.Some? then entry.dataUrl.value else ""));
      if !ok { return; }
    }
    ok := pickle.Write(Bool(entry.isOverridingUserAgent));
    if !ok { return; }
    ok := pickle.Write(Int64(entry.timestamp));
    if !ok { return; }
    ok := pickle.Write(Int(entry.httpStatusCode));
  }

  class WebContents {
    var entries: seq<NavigationEntry>
    var selected: int
  }

  lemma {:induction false} EntriesValuesAppend(version: int, entries: seq<NavigationEntry>, entry: NavigationEntry)
    ensures EntriesValues(version, entries + [entry]) == EntriesValues(version, entries) + EntryValues(version, entry)
  {
    if entries == [] {
      assert entries + [entry] == [entry];
      assert EntriesValues(version, [entry][1..]) == [];
    } else {
      assert (entries + [entry])[1..] == entries[1..] + [entry];
      EntriesValuesAppend(version, entries[1..], entry);
    }
  }

  lemma EntriesValuesGrow(version: int, header: seq<Value>, entries: seq<NavigationEntry>, i: nat)
    requires i < |entries|
    ensures header + EntriesValues(version, entries[..i + 1]) == header + EntriesValues(version, entries[..i]) + EntryValues(version, entries[i])
  {
    assert entries[..i + 1] == entries[..i] + [entries[i]];
    EntriesValuesAppend(version, entries[..i], entries[i]);
  }

  method WriteToPickle(contents: WebContents, pickle: Pickle) returns (ok: bool)
    requires Selectable(contents.entries, contents.selected)
    modifies pickle
    ensures ok && pickle.values == old(pickle.values) + StateValues(20151204, contents.entries, contents.selected)
  {
    var entries := contents.entries;
    ok := WriteHeaderToPickle(AW_STATE_VERSION, pickle);
    if !ok { return; }
    ok := pickle.Write(Int(|entries|));
    if !ok { return; }
    ok := pickle.Write(Int(contents.selected));
    if !ok { return; }
    ghost var header := pickle.values;
    for i := 0 to |entries|
      invariant ok && pickle.values == header + EntriesValues(AW_STATE_VERSION, entries[..i])
    {
      EntriesValuesGrow(AW_STATE_VERSION, header, entries, i);
      ok := WriteNavigationEntryToPickle(AW_STATE_VERSION, entries[i], pickle);
      if !ok { return; }
    }
    assert entries[..|entries|] == entries;
  }

  // ----- The reader -----

  method RestoreHeaderFromPickle(reader: PickleIterator) returns (version: int)
    requires reader.Valid()
    modifies reader`pos
    ensures reader.Valid()
    ensures version != 0 <==> old(reader.Rest()) != [] && old(reader.Rest())[0].UInt32?
                              && IsSupportedVersion(old(reader.Rest())[0].number)
    ensures version != 0 ==> version == old(reader.Rest())[0].number && reader.pos == old(reader.pos) + 1
  {
    var read := reader.ReadUInt32();
    if read.None? {
      return 0;
    }
    if IsSupportedVersion(read.value) {
      return read.value;
    }
    return 0;
  }

  method RestoreHeadFromPickle(reader: PickleIterator) returns (entry: Option<NavigationEntry>)
    requires reader.Valid()
    modifies reader`pos
    ensures reader.Valid()
    ensures entry.Some? <==> HeadFits(old(reader.Rest()))
    ensures entry.Some? ==> entry.value == HeadOf(old(reader.Rest())) && reader.pos == old(reader.pos) + 9
  {
    var e := NEW_ENTRY;
    var url := reader.ReadText();
    if url.None? { return None; }
    e := e.(url := url.value);
    var virtualUrl := reader.ReadText();
    if virtualUrl.None? { return None; }
    e := e.(virtualUrl := virtualUrl.value);
    var referrerUrl := reader.ReadText();
    if referrerUrl.None? { return None; }
    var policy := reader.ReadInt();
    if policy.None? { return None; }
    e := e.(referrerUrl := referrerUrl.value, referrerPolicy := policy.value);
    var title := reader.ReadText16();
    if title.None? { return None; }
    e := e.(title := title.value);
    var pageState := reader.ReadText();
    if pageState.None? { return None; }
    e := e.(pageState := pageState.value);
    var hasPostData := reader.ReadBool();
    if hasPostData.None? { return None; }
    e := e.(hasPostData := hasPostData.value);
    var originalRequestUrl := reader.ReadText();
    if originalRequestUrl.None? { return None; }
    e := e.(originalRequestUrl := originalRequestUrl.value);
    var baseUrl := reader.ReadText();
    if baseUrl.None? { return None; }
    e := e.(baseUrlForDataUrl := baseUrl.value);
    return Some(e);
  }

  method RestoreTailFromPickle(reader: PickleIterator, e: NavigationEntry) returns (entry: Option<NavigationEntry>)
    requires reader.Valid()
    modifies reader`pos
    ensures reader.Valid()
    ensures entry.Some? <==> TailFits(old(reader.Rest()))
    ensures entry.Some? ==> entry.value == WithTail(old(reader.Rest()), e) && reader.pos == old(reader.pos) + 3
  {
    var overriding := reader.ReadBool();
    if overriding.None? { return None; }
    var timestamp := reader.ReadInt64();
    if timestamp.None? { return None; }
    var code := reader.ReadInt();
    if code.None? { return None; }
    return Some(e.(isOverridingUserAgent := overriding.value, timestamp := timestamp.value, httpStatusCode := code.value));
  }

  method RestoreNavigationEntryFromPickle(version: int, reader: PickleIterator) returns (entry: Option<NavigationEntry>)
    requires reader.Valid() && IsSupportedVersion(version)
    modifies reader`pos
    ensures reader.Valid()
    ensures entry == EntryOf(version, old(reader.Rest()))
    ensures entry.Some? ==> reader.pos == old(reader.pos) + EntryLength(version)
  {
    ghost var rest := reader.Rest();
    var head := RestoreHeadFromPickle(reader);
    if head.None? { return None; }
    var e := head.value;
    assert reader.Rest() == rest[9..];
    if version >= AW_STATE_VERSION_DATA_URL {
      var data := reader.ReadData();
      if data.None? { return None; }
      if |data.value| > 0 {
        e := e.(dataUrl := Some(data.value));
      }
    }
    assert reader.Rest() == rest[EntryLength(version) - 3..];
    entry := RestoreTailFromPickle(reader, e);
  }

  /** Reading one entry more. */
  function Extended(version: int, values: seq<Value>, entries: Option<seq<NavigationEntry>>): Option<seq<NavigationEntry>> {
    if entries.None? || EntryOf(version, values).None? then None else Some(entries.value + [EntryOf(version, values).value])
  }

  lemma {:induction false} EntriesOfMore(version: int, values: seq<Value>, count: nat)
    requires EntriesOf(version, values, count).Some?
    ensures EntriesOf(version, values, count + 1)
         == Extended(version, values[Span(version, count)..], EntriesOf(version, values, count))
    decreases count
  {
    if count == 0 {
      var first := EntryOf(version, values);
      assert EntriesOf(version, values, 0) == Some([]);
      assert values[Span(version, 0)..] == values;
      if first.Some? {
        assert EntriesOf(version, values[EntryLength(version)..], 0) == Some([]);
        assert EntriesOf(version, values, 1) == Some([first.value] + []);
        assert [first.value] + [] == [] + [first.value];
      }
    } else {
      var length := EntryLength(version);
      EntriesOfMore(version, values[length..], count - 1);
      assert values[length..][Span(version, count - 1)..] == values[Span(version, count)..];
      var first, before := EntryOf(version, values).value, EntriesOf(version, values[length..], count - 1).value;
      var next := EntryOf(version, values[Span(version, count)..]);
      if next.Some? {
        assert [first] + (before + [next.value]) == ([first] + before) + [next.value];
      }
    }
  }

  /** A failure on the way is a failure of the whole. */
  lemma {:induction false} EntriesOfFewer(version: int, values: seq<Value>, fewer: nat, count: nat)
    requires fewer <= count && EntriesOf(version, values, count).Some?
    ensures EntriesOf(version, values, fewer).Some?
    decreases fewer
  {
    if fewer > 0 {
      EntriesOfFewer(version, values[EntryLength(version)..], fewer - 1, count - 1);
    }
  }

  /** One turn of the loop below. */
  method RestoreNextFromPickle(version: int, list: seq<NavigationEntry>, reader: PickleIterator,
                               ghost rest: seq<Value>, ghost start: nat)
    returns (list': Option<seq<NavigationEntry>>)
    requires reader.Valid() && IsSupportedVersion(version)
    requires EntriesOf(version, rest, |list|) == Some(list)
    requires start <= |reader.values| && rest == reader.values[start..] && reader.pos == start + Span(version, |list|)
    modifies reader`pos
    ensures reader.Valid()
    ensures list' == EntriesOf(version, rest, |list| + 1)
    ensures list'.Some? ==> reader.pos == start + Span(version, |list| + 1)
  {
    assert reader.Rest() == rest[Span(version, |list|)..];
    EntriesOfMore(version, rest, |list|);
    SpanMore(version, |list|);
    var entry := RestoreNavigationEntryFromPickle(version, reader);
    return if entry.None? then None else Some(list + [entry.value]);
  }

  method RestoreEntriesFromPickle(version: int, count: nat, reader: PickleIterator)
    returns (entries: Option<seq<NavigationEntry>>)
    requires reader.Valid() && IsSupportedVersion(version)
    modifies reader`pos
    ensures reader.Valid()
    ensures entries == EntriesOf(version, old(reader.Rest()), count)
    ensures entries.Some? ==> reader.pos == old(reader.pos) + Span(version, count)
  {
    ghost var rest, start := reader.Rest(), reader.pos;
    entries := Some([]);
    for i := 0 to count
      invariant reader.Valid() && entries.Some?
      invariant entries == EntriesOf(version, rest, i)
      invariant reader.pos == start + Span(version, i)
    {
      entries := RestoreNextFromPickle(version, entries.value, reader, rest, start);
      if entries.None? {
        FailsLater(version, rest, i + 1, count);
        return;
      }
    }
  }

  lemma FailsLater(version: int, values: seq<Value>, at: nat, count: nat)
    requires at <= count && EntriesOf(version, values, at).None?
    ensures EntriesOf(version, values, count).None?
  {
    if EntriesOf(version, values, count).Some? {
      EntriesOfFewer(version, values, at, count);
    }
  }

  lemma {:induction false} SpanMore(version: int, count: nat)
    ensures Span(version, count + 1) == Span(version, count) + EntryLength(version)
  {
    if count > 0 {
      SpanMore(version, count - 1);
    }
  }

  /** Restores the whole state, or leaves the web contents as they were. */
  method RestoreFromPickle(reader: PickleIterator, contents: WebContents) returns (ok: bool)
    requires reader.Valid()
    modifies reader`pos, contents
    ensures reader.Valid()
    ensures ok <==> StateOf(old(reader.Rest())).Some?
    ensures !ok ==> contents.entries == old(contents.entries) && contents.selected == old(contents.selected)
    ensures ok ==>
      var restored := StateOf(old(reader.Rest())).value;
      && contents.entries == restored.entries && contents.selected == restored.selected
      && reader.pos == old(reader.pos) + restored.consumed
  {
    ghost var rest := reader.Rest();
    var version := RestoreHeaderFromPickle(reader);
    if version == 0 {
      return false;
    }
    var entryCount := reader.ReadInt();
    if entryCount.None? {
      return false;
    }
    var selected := reader.ReadInt();
    if selected.None? {
      return false;
    }
    if entryCount.value < 0 {
      return false;
    }
    if selected.value < -1 {
      return false;
    }
    if selected.value >= entryCount.value {
      return false;
    }
    assert reader.Rest() == rest[3..];
    var entries := RestoreEntriesFromPickle(version, entryCount.value, reader);
    if entries.None? {
      return false;
    }
    contents.entries := entries.value;
    contents.selected := selected.value;
    return true;
  }
}
