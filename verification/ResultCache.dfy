/**
 The cache of the last protected-media answers, kept under a key that joins the
 requesting and the embedding origin with a comma.
 */
module ResultCache {
  import opened PermissionTypes

  type StatusMap = map<string, Status>

  /** What happened to the cache, oldest first. */
  datatype CacheEvent =
    | Answered(permission: PermissionType, requesting: Gurl, embedding: Gurl, status: Status)
    | Cleared(permission: PermissionType, requesting: Gurl, embedding: Gurl)

  function CacheKey(requesting: Gurl, embedding: Gurl): string {
    if requesting.Spec() == "" || embedding.Spec() == "" then ""
    else requesting.Spec() + "," + embedding.Spec()
  }

  function Store(cache: StatusMap, permission: PermissionType, requesting: Gurl, embedding: Gurl, status: Status): StatusMap {
    if requesting.IsEmpty() || embedding.IsEmpty() then cache
    else if !requesting.valid || !embedding.valid then cache
    else if !permission.PROTECTED_MEDIA_IDENTIFIER? then cache
    else cache[CacheKey(requesting, embedding) := status]
  }

  function Clear(cache: StatusMap, permission: PermissionType, requesting: Gurl, embedding: Gurl): StatusMap {
    if requesting.IsEmpty() || embedding.IsEmpty() then cache
    else if !permission.PROTECTED_MEDIA_IDENTIFIER? then cache
    else cache - {CacheKey(requesting, embedding)}
  }

  function Find(cache: StatusMap, permission: PermissionType, requesting: Gurl, embedding: Gurl): Status {
    if requesting.IsEmpty() || embedding.IsEmpty() then ASK
    else if !permission.PROTECTED_MEDIA_IDENTIFIER? then ASK
    else
      var key := CacheKey(requesting, embedding);
      if key in cache then cache[key] else ASK
  }

  /** The same table, updated in place. */
  class LastRequestResultCache {
    var pmiResultCache: StatusMap

    constructor ()
      ensures pmiResultCache == map[]
    {
      pmiResultCache := map[];
    }

    method SetResult(permission: PermissionType, requesting: Gurl, embedding: Gurl, status: Status)
      modifies this
      ensures pmiResultCache == Store(old(pmiResultCache), permission, requesting, embedding, status)
    {
      if requesting.IsEmpty() || embedding.IsEmpty() {
        return;
      }
      if !requesting.valid {
        return;
      }
      if !embedding.valid {
        return;
      }
      if permission != PROTECTED_MEDIA_IDENTIFIER {
        return;
      }
      var key := CacheKey(requesting, embedding);
      if key == "" {
        return;
      }
      pmiResultCache := pmiResultCache[key := status];
    }

    method GetResult(permission: PermissionType, requesting: Gurl, embedding: Gurl) returns (status: Status)
      ensures status == Find(pmiResultCache, permission, requesting, embedding)
    {
      if requesting.IsEmpty() || embedding.IsEmpty() {
        return ASK;
      }
      if permission != PROTECTED_MEDIA_IDENTIFIER {
        return ASK;
      }
      var key := CacheKey(requesting, embedding);
      if key !in pmiResultCache {
        return ASK;
      }
      return pmiResultCache[key];
    }

    method ClearResult(permission: PermissionType, requesting: Gurl, embedding: Gurl)
      modifies this
      ensures pmiResultCache == Clear(old(pmiResultCache), permission, requesting, embedding)
    {
      if requesting.IsEmpty() || embedding.IsEmpty() {
        return;
      }
      if permission != PROTECTED_MEDIA_IDENTIFIER {
        return;
      }
      var key := CacheKey(requesting, embedding);
      pmiResultCache := pmiResultCache - {key};
    }
  }

  // ----- The joined key -----

  /** One text splits at two different commas: the longer front part holds the first comma. */
  ghost predicate SplitsAt(front: string, back: string, front': string, back': string) {
    exists middle: string :: SplitsAround(front, back, front', back', middle)
  }

  ghost predicate SplitsAround(front: string, back: string, front': string, back': string, middle: string) {
    front' == front + "," + middle && back == middle + "," + back'
  }

  /** Joining two different pairs gives one text exactly when one front part extends the other through a comma. */
  lemma JoinCollidesIff(a: string, b: string, c: string, d: string)
    ensures a + "," + b == c + "," + d && (a, b) != (c, d) <==> SplitsAt(a, b, c, d) || SplitsAt(c, d, a, b)
  {
    if a + "," + b == c + "," + d {
      JoinSplits(a, b, c, d);
    }
    if SplitsAt(a, b, c, d) {
      SplitJoins(a, b, c, d);
    }
    if SplitsAt(c, d, a, b) {
      SplitJoins(c, d, a, b);
    }
  }

  lemma JoinSplits(a: string, b: string, c: string, d: string)
    requires a + "," + b == c + "," + d
    ensures (a, b) == (c, d) || SplitsAt(a, b, c, d) || SplitsAt(c, d, a, b)
  {
    var whole := a + "," + b;
    assert whole[..|a|] == a && whole[|a|] == ',' && whole[|a| + 1..] == b;
    assert whole[..|c|] == c && whole[|c|] == ',' && whole[|c| + 1..] == d;
    if |a| < |c| {
      var middle := whole[|a| + 1..|c|];
      assert c == a + "," + middle;
      assert b == middle + "," + d;
      assert SplitsAround(a, b, c, d, middle);
    } else if |c| < |a| {
      var middle := whole[|c| + 1..|a|];
      assert a == c + "," + middle;
      assert d == middle + "," + b;
      assert SplitsAround(c, d, a, b, middle);
    }
  }

  lemma SplitJoins(a: string, b: string, c: string, d: string)
    requires SplitsAt(a, b, c, d)
    ensures a + "," + b == c + "," + d && a != c
  {
    var middle :| SplitsAround(a, b, c, d, middle);
    assert a + "," + (middle + "," + d) == (a + "," + middle) + "," + d;
    assert |c| > |a|;
  }

  lemma CommaFreeNeverSplits(a: string, b: string, c: string, d: string)
    ensures SplitsAt(a, b, c, d) ==> ',' in c
  {
    if SplitsAt(a, b, c, d) {
      var middle :| SplitsAround(a, b, c, d, middle);
      assert c[|a|] == ',';
    }
  }

  predicate CommaFree(origin: Gurl) {
    ',' !in origin.text
  }

  predicate Cacheable(origin: Gurl) {
    origin.valid && !origin.IsEmpty()
  }

  /** With comma-free requesting origins the joined key names one pair only. */
  lemma KeyNamesOnePair(requesting: Gurl, embedding: Gurl, requesting': Gurl, embedding': Gurl)
    requires Cacheable(requesting) && Cacheable(embedding) && Cacheable(requesting') && Cacheable(embedding')
    requires CommaFree(requesting) && CommaFree(requesting')
    ensures CacheKey(requesting, embedding) != ""
    ensures CacheKey(requesting, embedding) == CacheKey(requesting', embedding')
       <==> requesting == requesting' && embedding == embedding'
  {
    var a, b, c, d := requesting.text, embedding.text, requesting'.text, embedding'.text;
    JoinCollidesIff(a, b, c, d);
    CommaFreeNeverSplits(a, b, c, d);
    CommaFreeNeverSplits(c, d, a, b);
  }

  /** Commas in the requesting origin do make two pairs share one entry. */
  lemma CommasCollide()
    ensures exists r, e, r', e' ::
              && Cacheable(r) && Cacheable(e) && Cacheable(r') && Cacheable(e')
              && (r, e) != (r', e') && CacheKey(r, e) == CacheKey(r', e')
  {
    var r, e, r', e' := Gurl("a,b", true), Gurl("c", true), Gurl("a", true), Gurl("b,c", true);
    assert CacheKey(r, e) == "a,b,c" == CacheKey(r', e');
    assert r != r';
  }

  // ----- The cache against its history -----

  function Apply(cache: StatusMap, event: CacheEvent): StatusMap {
    match event
    case Answered(permission, requesting, embedding, status) => Store(cache, permission, requesting, embedding, status)
    case Cleared(permission, requesting, embedding) => Clear(cache, permission, requesting, embedding)
  }

  function CacheOf(history: seq<CacheEvent>): StatusMap {
    if history == [] then map[] else Apply(CacheOf(history[..|history| - 1]), history[|history| - 1])
  }

  lemma CacheAfter(history: seq<CacheEvent>, event: CacheEvent)
    ensures CacheOf(history + [event]) == Apply(CacheOf(history), event)
  {
    assert (history + [event])[..|history|] == history;
  }

  /** The meaning of the cache: the last protected-media event for exactly this pair of origins. */
  function LastOutcome(history: seq<CacheEvent>, requesting: Gurl, embedding: Gurl): Status {
    if history == [] then ASK
    else
      var last := history[|history| - 1];
      if last.permission.PROTECTED_MEDIA_IDENTIFIER? && last.requesting == requesting && last.embedding == embedding
      then if last.Answered? then last.status else ASK
      else LastOutcome(history[..|history| - 1], requesting, embedding)
  }

  predicate AllCommaFree(history: seq<CacheEvent>) {
    forall event | event in history :: CommaFree(event.requesting)
  }

  lemma {:induction false} CacheHoldsLastOutcome(history: seq<CacheEvent>, requesting: Gurl, embedding: Gurl)
    requires AllCommaFree(history) && CommaFree(requesting)
    requires Cacheable(requesting) && Cacheable(embedding)
    ensures Find(CacheOf(history), PROTECTED_MEDIA_IDENTIFIER, requesting, embedding)
         == LastOutcome(history, requesting, embedding)
  {
    if history == [] {
    } else {
      var before, last := history[..|history| - 1], history[|history| - 1];
      CacheHoldsLastOutcome(before, requesting, embedding);
      if Cacheable(last.requesting) && Cacheable(last.embedding) {
        KeyNamesOnePair(requesting, embedding, last.requesting, last.embedding);
      }
      KeyNamesOnePair(requesting, embedding, requesting, embedding);
    }
  }

  lemma {:induction false} NoEmptyKey(history: seq<CacheEvent>)
    ensures "" !in CacheOf(history)
  {
    if history != [] {
      NoEmptyKey(history[..|history| - 1]);
    }
  }

  /** Nothing is remembered for an origin that is empty or invalid. */
  lemma UncacheableIsUnknown(history: seq<CacheEvent>, requesting: Gurl, embedding: Gurl)
    requires !Cacheable(requesting) || !Cacheable(embedding)
    ensures Find(CacheOf(history), PROTECTED_MEDIA_IDENTIFIER, requesting, embedding) == ASK
  {
    NoEmptyKey(history);
  }
}
