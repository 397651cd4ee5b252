/** The values the permission broker works on: permission kinds, statuses and origins. */
module PermissionTypes {

  datatype PermissionType =
    | MIDI_SYSEX
    | PUSH_MESSAGING
    | NOTIFICATIONS
    | GEOLOCATION
    | PROTECTED_MEDIA_IDENTIFIER
    | MIDI
    | DURABLE_STORAGE
    | AUDIO_CAPTURE
    | VIDEO_CAPTURE
    | BACKGROUND_SYNC
    | FLASH
    | NUM
  {
    /** The three kinds the embedder's delegate is asked about. */
    predicate IsDelegated() {
      GEOLOCATION? || PROTECTED_MEDIA_IDENTIFIER? || MIDI_SYSEX?
    }
  }

  datatype Status = GRANTED | DENIED | ASK

  /** An origin: its text, and whether the URL parser accepted it. */
  datatype Gurl = Gurl(text: string, valid: bool)
  {
    predicate IsEmpty() {
      text == ""
    }

    /** The specification string; an invalid URL has none. */
    function Spec(): string {
      if valid then text else ""
    }
  }

  predicate Distinct<T(==)>(s: seq<T>) {
    forall i, j | 0 <= i < j < |s| :: s[i] != s[j]
  }

  function Elements<T>(s: seq<T>): set<T> {
    set x | x in s
  }

  lemma SameElements(s: seq<int>, t: set<int>)
    requires forall k :: k in s <==> k in t
    ensures Elements(s) == t
  {
    assert forall k :: k in Elements(s) <==> k in t;
  }

  lemma SomeElement(s: set<int>)
    ensures s == {} || exists x :: x in s
  {
    if forall x :: x !in s {
      assert s == {};
    }
  }

  lemma DistinctRest<T>(s: seq<T>)
    requires s != []
    ensures Distinct(s) <==> Distinct(s[1..]) && s[0] !in s[1..]
  {
    var rest := s[1..];
    if Distinct(rest) && s[0] !in rest {
      forall i, j | 0 <= i < j < |s| ensures s[i] != s[j] {
        assert s[j] == rest[j - 1] && (i > 0 ==> s[i] == rest[i - 1]);
      }
    } else if Distinct(s) {
      forall j | 0 <= j < |rest| ensures rest[j] != s[0] {
        assert rest[j] == s[j + 1];
      }
      forall i, j | 0 <= i < j < |rest| ensures rest[i] != rest[j] {
        assert rest[i] == s[i + 1] && rest[j] == s[j + 1];
      }
    }
  }

  /** A set of the elements of a list is as large as the list exactly when the list has no repeats. */
  lemma {:induction false} DistinctIffAllCounted<T>(s: seq<T>)
    ensures |Elements(s)| <= |s|
    ensures Distinct(s) <==> |Elements(s)| == |s|
  {
    if s == [] {
    } else {
      var rest := s[1..];
      DistinctIffAllCounted(rest);
      assert s == [s[0]] + rest;
      assert Elements(s) == {s[0]} + Elements(rest);
      if s[0] in rest {
        assert Elements(s) == Elements(rest);
      } else {
        assert |Elements(s)| == 1 + |Elements(rest)|;
      }
      DistinctRest(s);
    }
  }
}
