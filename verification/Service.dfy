/**
 A whole sequence of requests, served one after the other, while the memory tier
 forgets whatever it likes in between: what the cache answers with is what the last
 download of the same resource stored.
 */
module Service {
  import opened Common
  import opened Streaming
  import opened Protocol
  import opened Fifos
  import opened DiskLayout
  import DiskCaches
  import Tiers
  import opened Inflight
  import opened Handler

  datatype Act =
    | Serve(key: Key, first: nat, second: nat, upstream: Upstream, config: Config, world: World)
    | Drop(key: Key)

  datatype Outcome =
    | Cached(entry: CacheEntry)
    | Fetched(stored: Option<CacheEntry>)
    | Unreadable
    | Dropped

  /** What the tiers go through for one act. */
  ghost function Events(codec: Codec, t: Tiers.Tiers, act: Act): seq<Tiers.Event> {
    match act
    case Drop(key) => [Tiers.Forget(key)]
    case Serve(key, first, second, upstream, config, world) =>
      var stored := EntryFor(upstream, config, world);
      [Tiers.Get(key, first, second)]
      + if Tiers.LookUp(t, key, first, second).1.Miss? && stored.Some? then [PutOf(codec, key, stored.value, world)] else []
  }

  function PutOf(codec: Codec, key: Key, entry: CacheEntry, world: World): Tiers.Event {
    Tiers.Put(key, entry, |codec.encode(MetadataOf(entry))| + |entry.data|, world.writtenAt)
  }

  ghost function Trace(max: nat, codec: Codec, acts: seq<Act>): seq<Tiers.Event> {
    if acts == [] then []
    else
      var before := Trace(max, codec, acts[..|acts| - 1]);
      before + Events(codec, Tiers.After(max, before), Last(acts))
  }

  /** The tiers after the acts, starting empty. */
  ghost function StateAfter(max: nat, codec: Codec, acts: seq<Act>): Tiers.Tiers {
    Tiers.After(max, Trace(max, codec, acts))
  }

  /** How an act turns out with the tiers as they are. */
  ghost function OutcomeOf(t: Tiers.Tiers, act: Act): Outcome {
    match act
    case Drop(_) => Dropped
    case Serve(key, first, second, upstream, config, world) =>
      match Tiers.LookUp(t, key, first, second).1
      case Hit(entry) => Cached(entry)
      case Corrupt => Unreadable
      case Miss => Fetched(EntryFor(upstream, config, world))
  }

  ghost function OutcomeAt(max: nat, codec: Codec, acts: seq<Act>, i: nat): Outcome
    requires i < |acts|
  {
    OutcomeOf(StateAfter(max, codec, acts[..i]), acts[i])
  }

  // ---------------------------------------------------------------- the trace is disciplined

  lemma AfterSnoc(max: nat, events: seq<Tiers.Event>, e: Tiers.Event)
    ensures Tiers.After(max, events + [e]) == Tiers.Apply(Tiers.After(max, events), max, e)
  {
    assert Tiers.Before(events + [e]) == events;
  }

  lemma DisciplineSnoc(max: nat, events: seq<Tiers.Event>, e: Tiers.Event)
    requires Tiers.Disciplined(max, events)
    requires e.Put? ==> Tiers.MissPending(max, events, e.h)
    requires !e.Restart?
    ensures Tiers.Disciplined(max, events + [e])
  {
    hide Tiers.MissPending, Tiers.After;
    var all := events + [e];
    forall i | 0 <= i < |all|
      ensures all[i].Put? ==> Tiers.MissPending(max, all[..i], all[i].h)
      ensures !all[i].Restart? || Fifo(all[i].order, Tiers.After(max, all[..i]).disk.slots).Ok()
    {
      if i < |events| {
        assert all[i] == events[i] && all[..i] == events[..i];
      } else {
        assert all[..i] == events;
      }
    }
  }

  /** A look-up that finds nothing is a pending miss. */
  lemma MissIsPending(max: nat, events: seq<Tiers.Event>, key: Key, first: nat, second: nat)
    requires Tiers.LookUp(Tiers.After(max, events), key, first, second).1.Miss?
    ensures Tiers.MissPending(max, events + [Tiers.Get(key, first, second)], key)
  {
    var all := events + [Tiers.Get(key, first, second)];
    assert all[..|events|] == events;
    assert Tiers.MissAt(max, all, key, |events|);
  }

  lemma ActIsDisciplined(max: nat, codec: Codec, events: seq<Tiers.Event>, act: Act)
    requires Tiers.Disciplined(max, events)
    ensures Tiers.Disciplined(max, events + Events(codec, Tiers.After(max, events), act))
  {
    hide Tiers.Disciplined, Tiers.MissPending, Tiers.LookUp, EntryFor;
    var t := Tiers.After(max, events);
    match act
    case Drop(key) => DisciplineSnoc(max, events, Tiers.Forget(key));
    case Serve(key, first, second, upstream, config, world) =>
      var look := Tiers.Get(key, first, second);
      DisciplineSnoc(max, events, look);
      var stored := EntryFor(upstream, config, world);
      if Tiers.LookUp(t, key, first, second).1.Miss? && stored.Some? {
        var put := PutOf(codec, key, stored.value, world);
        MissIsPending(max, events, key, first, second);
        DisciplineSnoc(max, events + [look], put);
        assert events + Events(codec, t, act) == events + [look] + [put];
      } else {
        assert events + Events(codec, t, act) == events + [look];
      }
  }

  /** Served one after the other, requests never store without having missed first. */
  lemma {:induction false} TraceIsDisciplined(max: nat, codec: Codec, acts: seq<Act>)
    ensures Tiers.Disciplined(max, Trace(max, codec, acts))
  {
    if acts != [] {
      TraceIsDisciplined(max, codec, acts[..|acts| - 1]);
      ActIsDisciplined(max, codec, Trace(max, codec, acts[..|acts| - 1]), Last(acts));
    }
  }

  // ---------------------------------------------------------------- where an entry comes from

  lemma LastPutSnoc(events: seq<Tiers.Event>, e: Tiers.Event, h: Hash)
    ensures Tiers.LastPut(events + [e], h)
         == if e.Put? && e.h == h then Some(e.entry) else Tiers.LastPut(events, h)
  {
    assert Tiers.Before(events + [e]) == events;
  }

  /** An act puts something only if it fetches something that is stored. */
  lemma LastPutOfAct(codec: Codec, max: nat, events: seq<Tiers.Event>, act: Act, key: Key)
    ensures
      var t := Tiers.After(max, events);
      var outcome := OutcomeOf(t, act);
      Tiers.LastPut(events + Events(codec, t, act), key)
      == if act.key == key && outcome.Fetched? && outcome.stored.Some? then outcome.stored
         else Tiers.LastPut(events, key)
  {
    hide Tiers.LookUp, EntryFor, Tiers.LastPut;
    var t := Tiers.After(max, events);
    match act
    case Drop(k) => LastPutSnoc(events, Tiers.Forget(k), key);
    case Serve(k, first, second, upstream, config, world) =>
      var look := Tiers.Get(k, first, second);
      LastPutSnoc(events, look, key);
      var stored := EntryFor(upstream, config, world);
      if Tiers.LookUp(t, k, first, second).1.Miss? && stored.Some? {
        var put := PutOf(codec, k, stored.value, world);
        LastPutSnoc(events + [look], put, key);
        assert events + Events(codec, t, act) == events + [look] + [put];
      } else {
        assert events + Events(codec, t, act) == events + [look];
      }
  }

  /** Act `j` fetched and stored this entry for the key. */
  ghost predicate StoredAt(max: nat, codec: Codec, acts: seq<Act>, key: Key, j: nat, entry: CacheEntry) {
    j < |acts| && acts[j].key == key && OutcomeAt(max, codec, acts, j) == Fetched(Some(entry))
  }

  /** It did, and nothing was stored for the key since. */
  ghost predicate StoredLastAt(max: nat, codec: Codec, acts: seq<Act>, key: Key, j: nat, entry: CacheEntry) {
    && StoredAt(max, codec, acts, key, j, entry)
    && forall k: nat, other :: j < k < |acts| ==> !StoredAt(max, codec, acts, key, k, other)
  }

  lemma OutcomeBefore(max: nat, codec: Codec, acts: seq<Act>, i: nat)
    requires i + 1 < |acts|
    ensures OutcomeAt(max, codec, acts[..|acts| - 1], i) == OutcomeAt(max, codec, acts, i)
  {
    assert acts[..|acts| - 1][..i] == acts[..i];
  }

  lemma LastPutStep(max: nat, codec: Codec, acts: seq<Act>, key: Key)
    requires acts != []
    ensures
      var n := |acts| - 1;
      var outcome := OutcomeAt(max, codec, acts, n);
      Tiers.LastPut(Trace(max, codec, acts), key)
      == if acts[n].key == key && outcome.Fetched? && outcome.stored.Some? then outcome.stored
         else Tiers.LastPut(Trace(max, codec, acts[..n]), key)
  {
    hide OutcomeOf, Tiers.LastPut;
    LastPutOfAct(codec, max, Trace(max, codec, acts[..|acts| - 1]), Last(acts), key);
  }

  /** What was stored last before an act that stores nothing for the key is so after it. */
  lemma StillLast(max: nat, codec: Codec, acts: seq<Act>, key: Key, n: nat, j: nat, entry: CacheEntry)
    requires |acts| == n + 1 && StoredLastAt(max, codec, acts[..n], key, j, entry)
    requires forall other :: !StoredAt(max, codec, acts, key, n, other)
    ensures StoredLastAt(max, codec, acts, key, j, entry)
  {
    hide OutcomeAt;
    var before := acts[..n];
    OutcomeBefore(max, codec, acts, j);
    forall k: nat, other | j < k < |acts|
      ensures !StoredAt(max, codec, acts, key, k, other)
    {
      if k < n {
        OutcomeBefore(max, codec, acts, k);
        assert !StoredAt(max, codec, before, key, k, other);
      }
    }
  }

  lemma {:induction false} LastPutWasStored(max: nat, codec: Codec, acts: seq<Act>, key: Key) returns (j: nat)
    requires Tiers.LastPut(Trace(max, codec, acts), key).Some?
    ensures StoredLastAt(max, codec, acts, key, j, Tiers.LastPut(Trace(max, codec, acts), key).value)
  {
    assert acts != [] by { NothingPut(key); }
    hide Tiers.LastPut, Trace, OutcomeAt;
    var entry := Tiers.LastPut(Trace(max, codec, acts), key).value;
    LastPutStep(max, codec, acts, key);
    var n := |acts| - 1;
    j := n;
    if !StoredAt(max, codec, acts, key, n, entry) {
      j := LastPutWasStored(max, codec, acts[..n], key);
      StillLast(max, codec, acts, key, n, j, entry);
    }
  }

  lemma NothingPut(key: Key)
    ensures Tiers.LastPut([], key).None?
  {
  }

  /**
   Whatever came before: a request answered from the cache is answered with the
   entry that an earlier request for the same resource fetched and stored, and no
   request between the two stored another. No request ever finds an unreadable entry.
   */
  lemma CachedIsLastStored(max: nat, codec: Codec, acts: seq<Act>, i: nat)
    requires i < |acts|
    ensures OutcomeAt(max, codec, acts, i) != Unreadable
    ensures
      match OutcomeAt(max, codec, acts, i)
      case Cached(entry) =>
        && (exists j: nat :: StoredLastAt(max, codec, acts[..i], acts[i].key, j, entry))
        && (!Tiers.Expired(entry, acts[i].first) || !Tiers.Expired(entry, acts[i].second))
      case _ => true
  {
    var before := acts[..i];
    if acts[i].Serve? {
      TraceIsDisciplined(max, codec, before);
      Tiers.GetIsLastPut(max, Trace(max, codec, before), acts[i].key, acts[i].first, acts[i].second);
      hide Tiers.LookUp, StoredLastAt;
      if OutcomeAt(max, codec, acts, i).Cached? {
        var j := LastPutWasStored(max, codec, before, acts[i].key);
      }
    }
  }

  /** And that entry holds what the clients of the earlier request were sent and told. */
  lemma StoredWasSent(max: nat, codec: Codec, acts: seq<Act>, key: Key, j: nat, entry: CacheEntry)
    requires StoredAt(max, codec, acts, key, j, entry)
    ensures acts[j].Serve?
    ensures
      var (upstream, config, world) := (acts[j].upstream, acts[j].config, acts[j].world);
      && FailureOf(upstream, config).None?
      && entry.data == Concat(Sent(upstream, config)) && |entry.data| <= config.maxBody
      && Answer(upstream, config, world) == Published(ResponseMeta(entry.status, entry.headers))
  {
    hide Tiers.LookUp, EntryFor, FailureOf, Sent, Answer, StateAfter;
    StoredIsWhatWasSent(acts[j].upstream, acts[j].config, acts[j].world);
  }

  /** The act is about another resource, or a request for this one while its entry is good. */
  predicate LeavesAlone(act: Act, key: Key, entry: CacheEntry, now: nat) {
    match act
    case Drop(k) => k != key
    case Serve(k, first, _, _, _, _) => k == key ==> entry.timestamp <= first <= now
  }

  lemma StepLeavesAlone(t: Tiers.Tiers, max: nat, codec: Codec, act: Act, key: Key, entry: CacheEntry, now: nat)
    requires key in t.memory && t.memory[key] == entry && !Tiers.Expired(entry, now)
    requires LeavesAlone(act, key, entry, now)
    ensures
      var u := StateStepOf(t, max, codec, act);
      key in u.memory && u.memory[key] == entry
  {
    hide Tiers.LookUp, EntryFor, Tiers.Store, Tiers.Expired;
    if act.Serve? {
      Tiers.LookUpEffect(t, act.key, act.first, act.second);
      Tiers.HitsExactly(t, act.key, act.first, act.second);
      if act.key == key { Tiers.GoodBefore(entry, act.first, now); }
      var stored := EntryFor(act.upstream, act.config, act.world);
      if stored.Some? {
        var e := stored.value;
        Tiers.StoreEffect(Tiers.LookUp(t, act.key, act.first, act.second).0, max, act.key, e,
                          |codec.encode(MetadataOf(e))| + |e.data|, act.world.writtenAt);
      }
    }
  }

  lemma StoringStep(t: Tiers.Tiers, max: nat, codec: Codec, act: Act, entry: CacheEntry)
    requires OutcomeOf(t, act) == Fetched(Some(entry))
    ensures
      var u := StateStepOf(t, max, codec, act);
      act.key in u.memory && u.memory[act.key] == entry
  {
    hide Tiers.LookUp, EntryFor, Tiers.Store;
    Tiers.StoreEffect(Tiers.LookUp(t, act.key, act.first, act.second).0, max, act.key, entry,
                      |codec.encode(MetadataOf(entry))| + |entry.data|, act.world.writtenAt);
  }

  lemma {:induction false} StoredStays(max: nat, codec: Codec, acts: seq<Act>, i: nat, entry: CacheEntry, now: nat)
    requires i < |acts| && OutcomeAt(max, codec, acts, i) == Fetched(Some(entry)) && !Tiers.Expired(entry, now)
    requires forall j :: i < j < |acts| ==> LeavesAlone(acts[j], acts[i].key, entry, now)
    ensures
      var t := StateAfter(max, codec, acts);
      acts[i].key in t.memory && t.memory[acts[i].key] == entry
  {
    hide OutcomeOf, StateStepOf, Tiers.Expired, LeavesAlone, StateAfter;
    var n := |acts| - 1;
    assert acts[..n + 1] == acts;
    StateStep(max, codec, acts, n);
    if i == n {
      StoringStep(StateAfter(max, codec, acts[..n]), max, codec, acts[n], entry);
    } else {
      assert acts[..n][..i] == acts[..i];
      StoredStays(max, codec, acts[..n], i, entry, now);
      StepLeavesAlone(StateAfter(max, codec, acts[..n]), max, codec, acts[n], acts[i].key, entry, now);
    }
  }

  /**
   A resource that was fetched and stored is served from the cache, with the same
   entry, until it expires, unless memory dropped it; the origin is not asked again.
   */
  lemma StoredIsServedAgain(max: nat, codec: Codec, acts: seq<Act>, i: nat, entry: CacheEntry, n: nat)
    requires i < n < |acts| && OutcomeAt(max, codec, acts, i) == Fetched(Some(entry))
    requires acts[n].Serve? && acts[n].key == acts[i].key && !Tiers.Expired(entry, acts[n].first)
    requires forall j :: i < j < n ==> LeavesAlone(acts[j], acts[i].key, entry, acts[n].first)
    ensures OutcomeAt(max, codec, acts, n) == Cached(entry)
  {
    assert acts[..n][..i] == acts[..i];
    StoredStays(max, codec, acts[..n], i, entry, acts[n].first);
    Tiers.HitsExactly(StateAfter(max, codec, acts[..n]), acts[n].key, acts[n].first, acts[n].second);
  }

  // ---------------------------------------------------------------- carrying it out

  /** The entries answered from the cache, one place for each act. */
  method ServeAll(inflight: InflightDownloads, cache: Tiers.TieredCache, acts: seq<Act>)
    returns (hits: seq<Option<CacheEntry>>)
    requires inflight.Valid() && inflight.downloads == map[]
    requires cache.Valid() && cache.Contents() == Tiers.Tiers(map[], Fifo([], map[]))
    modifies inflight, cache, cache.disk, cache.disk.fs
    ensures cache.Valid() && inflight.downloads == map[]
    ensures cache.Contents() == StateAfter(cache.disk.maxSize, cache.disk.codec, acts)
    ensures |hits| == |acts|
    ensures forall i :: 0 <= i < |acts| ==>
              hits[i] == HitOf(OutcomeAt(cache.disk.maxSize, cache.disk.codec, acts, i))
  {
    hide Tiers.TieredCache.Valid, Tiers.TieredCache.Contents, OutcomeOf, StateAfter, Tiers.LookUp;
    var max, codec := cache.disk.maxSize, cache.disk.codec;
    hits := [];
    assert acts[..0] == [];
    StartEmpty(max, codec);
    for k := 0 to |acts|
      invariant inflight.Valid() && inflight.downloads == map[] && cache.Valid()
      invariant cache.Contents() == StateAfter(max, codec, acts[..k])
      invariant |hits| == k
      invariant forall i :: 0 <= i < k ==> hits[i] == HitOf(OutcomeAt(max, codec, acts, i))
    {
      StateStep(max, codec, acts, k);
      var hit := Perform(inflight, cache, acts[k]);
      hits := hits + [hit];
    }
    assert acts[..|acts|] == acts;
  }

  function HitOf(outcome: Outcome): Option<CacheEntry> {
    if outcome.Cached? then Some(outcome.entry) else None
  }

  ghost function StateStepOf(t: Tiers.Tiers, max: nat, codec: Codec, act: Act): Tiers.Tiers {
    match act
    case Drop(key) => t.(memory := t.memory - {key})
    case Serve(key, first, second, upstream, config, world) =>
      var (tiers, read) := Tiers.LookUp(t, key, first, second);
      match EntryFor(upstream, config, world)
      case None => tiers
      case Some(e) =>
        if read.Miss? then Tiers.Store(tiers, max, key, e, |codec.encode(MetadataOf(e))| + |e.data|, world.writtenAt)
        else tiers
  }

  lemma StartEmpty(max: nat, codec: Codec)
    ensures StateAfter(max, codec, []) == Tiers.Tiers(map[], Fifo([], map[]))
  {
  }

  /** A look-up, and a put if there is something to put. */
  lemma ServeEvents(max: nat, codec: Codec, events: seq<Tiers.Event>, act: Act)
    requires act.Serve?
    ensures
      var t := Tiers.After(max, events);
      var looked := events + [Tiers.Get(act.key, act.first, act.second)];
      var stored := EntryFor(act.upstream, act.config, act.world);
      events + Events(codec, t, act)
      == if Tiers.LookUp(t, act.key, act.first, act.second).1.Miss? && stored.Some?
         then looked + [PutOf(codec, act.key, stored.value, act.world)] else looked
  {
    hide Tiers.LookUp, EntryFor, Tiers.After, PutOf;
  }

  lemma StepOfAct(max: nat, codec: Codec, events: seq<Tiers.Event>, act: Act)
    ensures
      var t := Tiers.After(max, events);
      Tiers.After(max, events + Events(codec, t, act)) == StateStepOf(t, max, codec, act)
  {
    hide Tiers.LookUp, EntryFor, Tiers.Store, Tiers.After;
    match act
    case Drop(key) => AfterSnoc(max, events, Tiers.Forget(key));
    case Serve(key, first, second, upstream, config, world) =>
      var look := Tiers.Get(key, first, second);
      AfterSnoc(max, events, look);
      ServeEvents(max, codec, events, act);
      var stored := EntryFor(upstream, config, world);
      if stored.Some? { AfterSnoc(max, events + [look], PutOf(codec, key, stored.value, world)); }
  }

  lemma StateStep(max: nat, codec: Codec, acts: seq<Act>, k: nat)
    requires k < |acts|
    ensures StateAfter(max, codec, acts[..k + 1])
         == StateStepOf(StateAfter(max, codec, acts[..k]), max, codec, acts[k])
  {
    hide Tiers.After, Events, StateStepOf;
    assert acts[..k + 1][..k] == acts[..k];
    StepOfAct(max, codec, Trace(max, codec, acts[..k]), acts[k]);
  }

  method Perform(inflight: InflightDownloads, cache: Tiers.TieredCache, act: Act) returns (hit: Option<CacheEntry>)
    requires inflight.Valid() && inflight.downloads == map[] && cache.Valid()
    modifies inflight, cache, cache.disk, cache.disk.fs
    ensures inflight.Valid() && inflight.downloads == map[] && cache.Valid()
    ensures cache.Contents() == StateStepOf(old(cache.Contents()), cache.disk.maxSize, cache.disk.codec, act)
    ensures hit == HitOf(OutcomeOf(old(cache.Contents()), act))
  {
    hide Tiers.TieredCache.Valid, Tiers.LookUp, EntryFor, Tiers.Store, Answers;
    match act {
      case Drop(key) =>
        cache.Forget(key);
        return None;
      case Serve(key, first, second, upstream, config, world) =>
        var r := HandleCacheableRequest(inflight, cache, key, first, second, upstream, config, world);
        AnswersAreNotHits(r, upstream, config, world);
        return if r.FromCache? then Some(r.entry) else None;
    }
  }

  lemma AnswersAreNotHits(r: Response, upstream: Upstream, config: Config, world: World)
    ensures Answers(r, upstream, config, world) ==> !r.FromCache?
  {
  }
}
