/** The driver of a download, from the request to what is stored and announced. */
module Handler {
  import opened Common
  import opened Streaming
  import opened Protocol
  import opened Headers
  import opened Freshness
  import opened Fifos
  import opened DiskLayout
  import DiskCaches
  import opened Tiers
  import opened Inflight

  /** What waiting for the next body frame brings. */
  datatype BodyEvent = DataFrame(bytes: Bytes) | OtherFrame | BrokenFrame(reason: string) | Stalled

  /** What the origin does with the request; a body that is not cut short ends after its events. */
  datatype Upstream =
    | Unreachable(reason: string)
    | Answered(status: nat, headers: HeaderMap, body: seq<BodyEvent>)

  /** `aptTtl` is set for package requests if their handling is enabled. */
  datatype Config = Config(maxBody: nat, aptTtl: Option<nat>, defaultTtl: nat)

  /** The readings of the clock along the way, and what it takes to read HTTP dates and list headers. */
  datatype World = World(
    parsedAt: nat, storedAt: nat, writtenAt: nat,
    parseDate: string -> Option<nat>, listed: HeaderMap -> seq<(string, string)>)

  // ---------------------------------------------------------------- how far a body gets

  /** The chunks of the data frames, in order. */
  function Payloads(body: seq<BodyEvent>): seq<Bytes> {
    if body == [] then []
    else Payloads(body[..|body| - 1]) + if Last(body).DataFrame? then [Last(body).bytes] else []
  }

  lemma PayloadsStep(body: seq<BodyEvent>, k: nat)
    requires k < |body|
    ensures Payloads(body[..k + 1])
         == if body[k].DataFrame? then Payloads(body[..k]) + [body[k].bytes] else Payloads(body[..k])
  {
    assert body[..k + 1][..k] == body[..k];
  }

  /** Why the download cannot get past this event, if it cannot. */
  function Trouble(body: seq<BodyEvent>, k: nat, maxBody: nat): Option<string>
    requires k < |body|
  {
    match body[k]
    case Stalled => Some("Upstream body read timed out")
    case BrokenFrame(reason) => Some(reason)
    case OtherFrame => None
    case DataFrame(bytes) =>
      if |Concat(Payloads(body[..k]))| + |bytes| > maxBody then Some("Response body too large") else None
  }

  /** The download gets past the first `n` events and no further. */
  ghost predicate StopsAt(body: seq<BodyEvent>, n: nat, maxBody: nat) {
    && n <= |body|
    && (forall k :: 0 <= k < n ==> Trouble(body, k, maxBody).None?)
    && (n < |body| ==> Trouble(body, n, maxBody).Some?)
  }

  ghost function Stop(body: seq<BodyEvent>, maxBody: nat): (n: nat)
    ensures StopsAt(body, n, maxBody)
  {
    StopFrom(body, 0, maxBody)
  }

  ghost function StopFrom(body: seq<BodyEvent>, k: nat, maxBody: nat): (n: nat)
    requires k <= |body| && forall j :: 0 <= j < k ==> Trouble(body, j, maxBody).None?
    ensures StopsAt(body, n, maxBody)
    decreases |body| - k
  {
    if k == |body| || Trouble(body, k, maxBody).Some? then k else StopFrom(body, k + 1, maxBody)
  }

  lemma StopIs(body: seq<BodyEvent>, n: nat, maxBody: nat)
    requires StopsAt(body, n, maxBody)
    ensures Stop(body, maxBody) == n
  {
  }

  /** The chunks that are passed on. */
  ghost function Taken(body: seq<BodyEvent>, maxBody: nat): seq<Bytes> {
    Payloads(body[..Stop(body, maxBody)])
  }

  ghost function Failing(body: seq<BodyEvent>, maxBody: nat): Option<string> {
    var n := Stop(body, maxBody);
    if n < |body| then Trouble(body, n, maxBody) else None
  }

  /** What is passed on never exceeds the limit. */
  lemma {:induction false} WithinLimit(body: seq<BodyEvent>, n: nat, maxBody: nat)
    requires n <= |body| && forall k :: 0 <= k < n ==> Trouble(body, k, maxBody).None?
    ensures |Concat(Payloads(body[..n]))| <= maxBody
  {
    if n > 0 {
      WithinLimit(body, n - 1, maxBody);
      PayloadsStep(body, n - 1);
      assert Trouble(body, n - 1, maxBody).None?;
      if body[n - 1].DataFrame? {
        ConcatSnoc(Payloads(body[..n - 1]), body[n - 1].bytes);
      }
    } else {
      assert body[..0] == [];
    }
  }

  /** No frame is late or broken. */
  predicate Intact(body: seq<BodyEvent>) {
    forall e :: e in body ==> !e.Stalled? && !e.BrokenFrame?
  }

  lemma {:induction false} PayloadsGrow(body: seq<BodyEvent>, k: nat)
    requires k <= |body|
    ensures |Concat(Payloads(body[..k]))| <= |Concat(Payloads(body))|
    decreases |body|
  {
    if k == |body| {
      assert body[..k] == body;
    } else {
      var n := |body| - 1;
      assert body[..n][..k] == body[..k] && body[..n + 1] == body;
      PayloadsGrow(body[..n], k);
      PayloadsStep(body, n);
      if body[n].DataFrame? { ConcatSnoc(Payloads(body[..n]), body[n].bytes); }
    }
  }

  /**
   A download succeeds exactly if every frame of the body arrived in time and in one
   piece and the chunks together are within the limit; then all of them are passed on.
   */
  lemma SucceedsExactly(body: seq<BodyEvent>, maxBody: nat)
    ensures Failing(body, maxBody).None? <==> Intact(body) && |Concat(Payloads(body))| <= maxBody
    ensures Failing(body, maxBody).None? ==> Stop(body, maxBody) == |body| && Taken(body, maxBody) == Payloads(body)
  {
    hide Concat, Payloads;
    assert body[..|body|] == body;
    if Failing(body, maxBody).None? {
      TakenWithinLimit(body, maxBody);
      forall e | e in body
        ensures !e.Stalled? && !e.BrokenFrame?
      {
        var k :| 0 <= k < |body| && body[k] == e;
        assert Trouble(body, k, maxBody).None?;
      }
    } else if Intact(body) && |Concat(Payloads(body))| <= maxBody {
      var n := Stop(body, maxBody);
      NoTrouble(body, n, maxBody);
    }
  }

  lemma NoTrouble(body: seq<BodyEvent>, k: nat, maxBody: nat)
    requires k < |body| && Intact(body) && |Concat(Payloads(body))| <= maxBody
    ensures Trouble(body, k, maxBody).None?
  {
    hide Concat, Payloads;
    assert body[k] in body;
    PayloadsStep(body, k);
    PayloadsGrow(body, k + 1);
    if body[k].DataFrame? { ConcatSnoc(Payloads(body[..k]), body[k].bytes); }
  }

  /** The first frame that is late, broken or over the limit gives the reason, and nothing from it on is passed on. */
  lemma FirstTroubleDecides(before: seq<BodyEvent>, e: BodyEvent, after: seq<BodyEvent>, maxBody: nat)
    requires Intact(before) && |Concat(Payloads(before))| <= maxBody
    requires e.DataFrame? ==> |Concat(Payloads(before))| + |e.bytes| > maxBody
    requires !e.OtherFrame?
    ensures
      var body := before + [e] + after;
      && Taken(body, maxBody) == Payloads(before)
      && Failing(body, maxBody) == Some(
           match e
           case Stalled => "Upstream body read timed out"
           case BrokenFrame(reason) => reason
           case DataFrame(_) => "Response body too large"
           case OtherFrame => "")
  {
    hide Concat, Payloads;
    var body, n := before + [e] + after, |before|;
    assert body[..n] == before && body[n] == e;
    forall k | 0 <= k < n
      ensures Trouble(body, k, maxBody).None?
    {
      assert body[k] == before[k] && body[..k] == before[..k];
      NoTrouble(before, k, maxBody);
    }
    StopIs(body, n, maxBody);
  }

  lemma TakenWithinLimit(body: seq<BodyEvent>, maxBody: nat)
    ensures |Concat(Taken(body, maxBody))| <= maxBody
  {
    WithinLimit(body, Stop(body, maxBody), maxBody);
  }

  /** Chunks added one after the other. */
  function AddAll(shared: Shared, chunks: seq<Bytes>, live: bool): Shared {
    if chunks == [] then shared
    else AddAll(shared, chunks[..|chunks| - 1], live).Push(Last(chunks)).Send(Data(Last(chunks)), live)
  }

  lemma AddAllSnoc(shared: Shared, chunks: seq<Bytes>, chunk: Bytes, live: bool)
    ensures AddAll(shared, chunks + [chunk], live)
         == AddAll(shared, chunks, live).Push(chunk).Send(Data(chunk), live)
  {
    assert (chunks + [chunk])[..|chunks|] == chunks;
  }

  /** Every chunk is remembered, offered and, with somebody listening, on the channel, in order. */
  lemma {:induction false} AddedAll(shared: Shared, chunks: seq<Bytes>, live: bool)
    ensures
      var after := AddAll(shared, chunks, live);
      && after.accumulated == shared.accumulated + chunks
      && after.offered == shared.offered + chunks
      && DataOf(after.ring) == DataOf(shared.ring) + (if live then chunks else [])
      && |after.ring| == |shared.ring| + (if live then |chunks| else 0)
      && after.meta == shared.meta
  {
    if chunks != [] {
      var some, chunk := chunks[..|chunks| - 1], Last(chunks);
      AddedAll(shared, some, live);
      AddAllSnoc(shared, some, chunk, live);
      DataOfSnoc(AddAll(shared, some, live).ring, Data(chunk));
      hide AddAll, DataOf;
      var a, o, d := shared.accumulated, shared.offered, DataOf(shared.ring);
      assert chunks == some + [chunk];
      assert a + some + [chunk] == a + chunks;
      assert o + some + [chunk] == o + chunks;
      assert d + some + [chunk] == d + chunks;
    }
  }

  /** Reads the body, passing on and collecting chunk by chunk. */
  method StreamBody(inflight: InflightDownloads, key: Key, body: seq<BodyEvent>, cacheable: bool, maxBody: nat)
    returns (failure: Option<string>, buffer: Bytes)
    requires inflight.Valid()
    modifies inflight.Parts(key)
    ensures failure == Failing(body, maxBody)
    ensures cacheable ==> buffer == Concat(Taken(body, maxBody))
    ensures key in inflight.downloads ==>
              && inflight.Sharing(key)
                 == AddAll(old(inflight.Sharing(key)), Taken(body, maxBody), old(inflight.Holders(key)).receivers > 0)
              && inflight.Holders(key) == old(inflight.Holders(key))
  {
    hide AddAll, Payloads;
    buffer := [];
    var total: nat := 0;
    ghost var live := key in inflight.downloads && inflight.Holders(key).receivers > 0;
    StartReading(body, if key in inflight.downloads then inflight.Sharing(key) else FRESH, live);
    for k := 0 to |body|
      invariant forall j :: 0 <= j < k ==> Trouble(body, j, maxBody).None?
      invariant total == |Concat(Payloads(body[..k]))|
      invariant cacheable ==> buffer == Concat(Payloads(body[..k]))
      invariant key in inflight.downloads ==>
                  && inflight.Sharing(key) == AddAll(old(inflight.Sharing(key)), Payloads(body[..k]), live)
                  && inflight.Holders(key) == old(inflight.Holders(key))
    {
      PayloadsStep(body, k);
      match body[k] {
        case Stalled =>
          StopIs(body, k, maxBody);
          return Some("Upstream body read timed out"), buffer;
        case BrokenFrame(reason) =>
          StopIs(body, k, maxBody);
          return Some(reason), buffer;
        case OtherFrame =>
        case DataFrame(bytes) =>
          if total + |bytes| > maxBody {
            StopIs(body, k, maxBody);
            return Some("Response body too large"), buffer;
          }
          ConcatSnoc(Payloads(body[..k]), bytes);
          if key in inflight.downloads {
            AddAllSnoc(old(inflight.Sharing(key)), Payloads(body[..k]), bytes, live);
          }
          total := total + |bytes|;
          if cacheable { buffer := buffer + bytes; }
          inflight.AddChunk(key, bytes);
      }
    }
    StopIs(body, |body|, maxBody);
    return None, buffer;
  }

  lemma StartReading(body: seq<BodyEvent>, shared: Shared, live: bool)
    ensures Payloads(body[..0]) == [] && Concat(Payloads(body[..0])) == []
    ensures AddAll(shared, Payloads(body[..0]), live) == shared
  {
    assert body[..0] == [];
  }

  // ---------------------------------------------------------------- storing

  /** How long the response may be kept; none at all if it arrived expired. */
  ghost function Lifetime(headers: HeaderMap, config: Config, world: World): Option<nat> {
    if config.aptTtl.Some? then config.aptTtl
    else
      match TimeToLive(headers, world.parsedAt, world.parseDate)
      case Some(ttl) => if ttl == 0 then None else Some(ttl)
      case None => Some(config.defaultTtl)
  }

  /** The entry a download leaves in the cache: nothing unless it got through the whole body. */
  ghost function EntryFor(upstream: Upstream, config: Config, world: World): Option<CacheEntry> {
    if upstream.Unreachable? || Failing(upstream.body, config.maxBody).Some? then None
    else
      var kept := Filtered(upstream.headers);
      EntryOf(Cacheable(upstream.status, kept), upstream.status, kept,
              Concat(Taken(upstream.body, config.maxBody)), config, world)
  }

  /** What the download shares after the task has read all it could. */
  ghost function SharedAfter(before: Shared, upstream: Upstream, config: Config, world: World, holders: Holding): Shared {
    match upstream
    case Unreachable(_) => before
    case Answered(status, headers, body) =>
      var meta := ResponseMeta(status, world.listed(Filtered(headers)));
      AddAll(before.SetMeta(Published(meta), holders.metaReceivers > 0), Taken(body, config.maxBody),
             holders.receivers > 0)
  }

  ghost function FailureOf(upstream: Upstream, config: Config): Option<string> {
    if upstream.Unreachable? then Some(upstream.reason) else Failing(upstream.body, config.maxBody)
  }

  /** The entry a body that was read to its end leaves in the cache. */
  ghost function EntryOf(cacheable: bool, status: nat, kept: HeaderMap, data: Bytes,
                         config: Config, world: World): Option<CacheEntry> {
    var ttl := Lifetime(kept, config, world);
    if cacheable && ttl.Some? then
      Some(CacheEntry(data, world.listed(kept), status, world.storedAt, ttl.value))
    else None
  }

  ghost function StoredIn(t: Tiers, disk: DiskCaches.DiskCache, key: Key, entry: Option<CacheEntry>, world: World): Tiers {
    match entry
    case None => t
    case Some(e) => Store(t, disk.maxSize, key, e, |disk.codec.encode(MetadataOf(e))| + |e.data|, world.writtenAt)
  }

  /** Stores a body that was read to its end, if the response may be stored. */
  method CacheBody(cache: TieredCache, key: Key, status: nat, headers: HeaderMap, cacheable: bool, buffer: Bytes,
                   config: Config, world: World)
    requires cache.Valid()
    modifies cache, cache.disk, cache.disk.fs
    ensures cache.Valid()
    ensures cache.Contents()
         == StoredIn(old(cache.Contents()), cache.disk, key, EntryOf(cacheable, status, headers, buffer, config, world), world)
  {
    hide TimeToLive, Store, TieredCache.Valid;
    if !cacheable { return; }
    var ttl := config.aptTtl;
    if ttl.None? {
      ttl := ParseCacheControlHeaders(headers, world.parsedAt, world.parseDate);
      if ttl == Some(0) { return; }
      if ttl.None? { ttl := Some(config.defaultTtl); }
    }
    cache.Put(key, CacheEntry(buffer, world.listed(headers), status, world.storedAt, ttl.value), world.writtenAt);
  }

  /** Fetches the response and passes it on as it arrives. */
  method PassOn(inflight: InflightDownloads, key: Key, upstream: Upstream, config: Config, world: World)
    returns (failure: Option<string>, headers: HeaderMap, cacheable: bool, buffer: Bytes)
    requires inflight.Valid()
    modifies inflight.Parts(key)
    ensures failure == FailureOf(upstream, config)
    ensures key in inflight.downloads ==>
              && inflight.Sharing(key)
                 == SharedAfter(old(inflight.Sharing(key)), upstream, config, world, old(inflight.Holders(key)))
              && inflight.Holders(key) == old(inflight.Holders(key))
    ensures failure.None? ==>
              && headers == Filtered(upstream.headers) && cacheable == Cacheable(upstream.status, headers)
              && (cacheable ==> buffer == Concat(Taken(upstream.body, config.maxBody)))
  {
    headers, cacheable, buffer := map[], false, [];
    if upstream.Unreachable? { return Some(upstream.reason), headers, cacheable, buffer; }
    headers := FilterHeaders(upstream.headers);
    assert headers == Filtered(upstream.headers);
    hide Failing, Taken, Cacheable, AddAll, Filters, Concat;
    inflight.SetResponseMeta(key, ResponseMeta(upstream.status, world.listed(headers)));
    cacheable := ShouldCacheResponse(upstream.status, headers);
    failure, buffer := StreamBody(inflight, key, upstream.body, cacheable, config.maxBody);
  }

  /** Passes the response on, and stores it if it came through whole. */
  method FetchAndStream(inflight: InflightDownloads, cache: TieredCache, key: Key,
                        upstream: Upstream, config: Config, world: World) returns (failure: Option<string>)
    requires inflight.Valid() && cache.Valid()
    modifies inflight.Parts(key), cache, cache.disk, cache.disk.fs
    ensures cache.Valid()
    ensures failure == FailureOf(upstream, config)
    ensures key in inflight.downloads ==>
              && inflight.Sharing(key)
                 == SharedAfter(old(inflight.Sharing(key)), upstream, config, world, old(inflight.Holders(key)))
              && inflight.Holders(key) == old(inflight.Holders(key))
    ensures cache.Contents() == StoredIn(old(cache.Contents()), cache.disk, key, EntryFor(upstream, config, world), world)
  {
    hide Taken, Filtered, Cacheable, Concat, SharedAfter, StoredIn, EntryOf, EntryFor, FailureOf, TieredCache.Valid, TieredCache.Contents;
    var headers, cacheable, buffer;
    failure, headers, cacheable, buffer := PassOn(inflight, key, upstream, config, world);
    assert cache.Valid() && cache.Contents() == old(cache.Contents());
    WhatIsStored(upstream, config, world, cacheable, buffer);
    NothingStored(cache.Contents(), cache.disk, key, world);
    if failure.None? {
      CacheBody(cache, key, upstream.status, headers, cacheable, buffer, config, world);
    }
  }

  /** Only a body that came through whole is stored, and only if the response may be; then it is the one collected. */
  lemma WhatIsStored(upstream: Upstream, config: Config, world: World, cacheable: bool, buffer: Bytes)
    ensures FailureOf(upstream, config).Some? ==> EntryFor(upstream, config, world) == None
    ensures
      && FailureOf(upstream, config).None?
      && (cacheable ==> buffer == Concat(Taken(upstream.body, config.maxBody)))
      && cacheable == Cacheable(upstream.status, Filtered(upstream.headers)) ==>
        upstream.Answered?
        && EntryFor(upstream, config, world)
           == EntryOf(cacheable, upstream.status, Filtered(upstream.headers), buffer, config, world)
  {
    hide Taken, Filtered, Cacheable, Concat, Failing;
  }

  lemma NothingStored(t: Tiers, disk: DiskCaches.DiskCache, key: Key, world: World)
    ensures StoredIn(t, disk, key, None, world) == t
  {
  }

  // ---------------------------------------------------------------- answering a request

  /** The spawned task: fetch, announce, let go. */
  method RunTask(inflight: InflightDownloads, cache: TieredCache, key: Key, sender: Broadcast,
                 upstream: Upstream, config: Config, world: World)
    requires inflight.Valid() && cache.Valid() && key in inflight.downloads
    requires inflight.downloads[key].sender == sender && sender.senders == 2
    modifies inflight, inflight.Parts(key), cache, cache.disk, cache.disk.fs
    ensures inflight.Valid() && cache.Valid()
    ensures inflight.downloads == old(inflight.downloads) - {key} && sender.senders == 0
    ensures
      var before, holders := old(inflight.Sharing(key)), old(inflight.Holders(key));
      old(inflight.downloads[key]).Shares()
      == Finished(SharedAfter(before, upstream, config, world, holders), FailureOf(upstream, config), holders)
    ensures cache.Contents() == StoredIn(old(cache.Contents()), cache.disk, key, EntryFor(upstream, config, world), world)
  {
    hide TieredCache.Valid, TieredCache.Contents, EntryFor, StoredIn, SharedAfter, FailureOf, Finished;
    var failure := FetchAndStream(inflight, cache, key, upstream, config, world);
    FinishTask(inflight, key, sender, failure);
  }

  /** What is announced at the end. */
  ghost function Announcement(upstream: Upstream, config: Config): Message {
    match FailureOf(upstream, config)
    case None => Complete
    case Some(reason) => Error(reason)
  }

  /** The chunks that reach the clients. */
  ghost function Sent(upstream: Upstream, config: Config): seq<Bytes> {
    if upstream.Unreachable? then [] else Taken(upstream.body, config.maxBody)
  }

  /** What is stored is what the clients got, with what they were told, from a download that did not fail. */
  lemma StoredIsWhatWasSent(upstream: Upstream, config: Config, world: World)
    requires EntryFor(upstream, config, world).Some?
    ensures
      var entry := EntryFor(upstream, config, world).value;
      && FailureOf(upstream, config).None?
      && entry.data == Concat(Sent(upstream, config)) && |entry.data| <= config.maxBody
      && Answer(upstream, config, world) == Published(ResponseMeta(entry.status, entry.headers))
  {
    hide Filtered, Cacheable, Lifetime, Concat, Taken;
    TakenWithinLimit(upstream.body, config.maxBody);
  }

  /**
   A response leaves an entry exactly if its body came whole and within the limit, it
   may be stored, and it is a package or did not arrive expired.
   */
  lemma StoredExactly(status: nat, headers: HeaderMap, body: seq<BodyEvent>, config: Config, world: World)
    ensures
      var kept := Filtered(headers);
      EntryFor(Answered(status, headers, body), config, world).Some?
      <==> (&& Intact(body) && |Concat(Payloads(body))| <= config.maxBody
            && Cacheable(status, kept)
            && (config.aptTtl.Some? || TimeToLive(kept, world.parsedAt, world.parseDate) != Some(0)))
  {
    hide Concat, Payloads, Filtered, Cacheable, TimeToLive, Failing, Taken;
    SucceedsExactly(body, config.maxBody);
  }

  /** It counts from when it was stored; its lifetime is that of packages, else what its headers say, else the configured one. */
  lemma StoredLifetime(upstream: Upstream, config: Config, world: World)
    requires EntryFor(upstream, config, world).Some?
    ensures
      var ttl := EntryFor(upstream, config, world).value.ttlSeconds;
      var stated := TimeToLive(Filtered(upstream.headers), world.parsedAt, world.parseDate);
      && upstream.Answered?
      && (config.aptTtl.Some? ==> ttl == config.aptTtl.value)
      && (config.aptTtl.None? && stated.Some? ==> ttl == stated.value > 0)
      && (config.aptTtl.None? && stated.None? ==> ttl == config.defaultTtl)
      && EntryFor(upstream, config, world).value.timestamp == world.storedAt
  {
    hide Concat, Payloads, Filtered, Cacheable, TimeToLive, Failing, Taken;
  }

  /** What clients are told of the response. */
  ghost function Answer(upstream: Upstream, config: Config, world: World): MetaResult {
    match FailureOf(upstream, config)
    case Some(reason) => Refusal(reason)
    case None => Published(ResponseMeta(upstream.status, world.listed(Filtered(upstream.headers))))
  }

  /**
   Clients are told status and filtered headers of a response that came whole and
   within the limit, and are sent all its chunks; else they are told what went wrong.
   */
  lemma ToldExactly(status: nat, headers: HeaderMap, body: seq<BodyEvent>, config: Config, world: World)
    ensures
      var upstream := Answered(status, headers, body);
      var whole := Intact(body) && |Concat(Payloads(body))| <= config.maxBody;
      && (Answer(upstream, config, world).Published? <==> whole)
      && (whole ==> Answer(upstream, config, world) == Published(ResponseMeta(status, world.listed(Filtered(headers)))))
      && (whole ==> Sent(upstream, config) == Payloads(body) && Announcement(upstream, config).Complete?)
      && (!whole ==> Announcement(upstream, config).Error?
                     && Answer(upstream, config, world) == Refusal(Announcement(upstream, config).reason))
  {
    hide Concat, Payloads, Filtered, Failing, Taken;
    SucceedsExactly(body, config.maxBody);
  }

  /** Subscribes before the task is spawned; here the task runs to its end before the client reads. */
  method SubscribeAndSpawn(inflight: InflightDownloads, cache: TieredCache, key: Key, sender: Broadcast,
                           upstream: Upstream, config: Config, world: World) returns (receiver: Receiver)
    requires inflight.Valid() && cache.Valid() && key in inflight.downloads
    requires inflight.downloads[key].sender == sender
    requires inflight.Sharing(key) == FRESH && inflight.Holders(key) == Holding(0, 2, 1)
    modifies inflight, inflight.Parts(key), cache, cache.disk, cache.disk.fs
    ensures inflight.Valid() && cache.Valid()
    ensures inflight.downloads == old(inflight.downloads) - {key}
    ensures fresh(receiver) && receiver.channel == sender && receiver.next == 0 && sender.senders == 0
    ensures
      var after := old(inflight.downloads[key]).Shares();
      && DataOf(after.ring) == after.accumulated == Sent(upstream, config)
      && |after.ring| == |Sent(upstream, config)| + 1 && Last(after.ring) == Announcement(upstream, config)
      && after.meta == Some(Answer(upstream, config, world))
    ensures cache.Contents() == StoredIn(old(cache.Contents()), cache.disk, key, EntryFor(upstream, config, world), world)
  {
    hide TieredCache.Valid, TieredCache.Contents, EntryFor, StoredIn, SharedAfter, FailureOf, Sent, DataOf, Finished, Answer, Announcement;
    receiver := sender.Subscribe();
    RunTask(inflight, cache, key, sender, upstream, config, world);
    EverythingSent(upstream, config, world);
  }

  /** With one client listening, all chunks and then the outcome are on the channel. */
  lemma EverythingSent(upstream: Upstream, config: Config, world: World)
    ensures
      var holders := Holding(1, 2, 1);
      var after := Finished(SharedAfter(FRESH, upstream, config, world, holders), FailureOf(upstream, config), holders);
      && after.accumulated == DataOf(after.ring) == Sent(upstream, config)
      && |after.ring| == |Sent(upstream, config)| + 1 && Last(after.ring) == Announcement(upstream, config)
      && after.meta == Some(Answer(upstream, config, world))
  {
    hide Filtered, Taken, Failing, DataOf;
    var shared := SharedAfter(FRESH, upstream, config, world, Holding(1, 2, 1));
    if upstream.Answered? {
      var meta := ResponseMeta(upstream.status, world.listed(Filtered(upstream.headers)));
      AddedAll(FRESH.SetMeta(Published(meta), true), Taken(upstream.body, config.maxBody), true);
    }
    assert DataOf(FRESH.ring) == [] by { NoMessages(); }
    DataOfSnoc(shared.ring, Announcement(upstream, config));
  }

  lemma NoMessages()
    ensures DataOf([]) == []
  {
  }

  datatype Response =
    | FromCache(entry: CacheEntry)
    | Streaming(meta: ResponseMeta, body: StreamingBody)
    | Joining(receiver: Receiver, initial: seq<Bytes>, metaRx: Watch)   // waits for the headers
    | ErrorPage(reason: string)

  /** The response of the request that started the download: an error, or a body with everything still to come. */
  ghost predicate Answers(r: Response, upstream: Upstream, config: Config, world: World)
    reads if r.Streaming? then {r.body, r.body.stream, r.body.stream.channel} else {}
  {
    match Answer(upstream, config, world)
    case Refusal(reason) => r == ErrorPage(reason)
    case Published(meta) =>
      && r.Streaming? && r.meta == meta && r.body.Progress() == Body([], 0, 0, false)
      && var channel := r.body.stream.channel;
      && channel.senders == 0
      && Outstanding(r.body.Progress(), channel.stored) == Sent(upstream, config)
      && |channel.stored| == |Sent(upstream, config)| + 1
      && Last(channel.stored) == Announcement(upstream, config)
  }

  method HandleStreamingDownload(inflight: InflightDownloads, cache: TieredCache, key: Key,
                                 sender: Broadcast, metaRx: Watch,
                                 upstream: Upstream, config: Config, world: World) returns (r: Response)
    requires inflight.Valid() && cache.Valid() && key in inflight.downloads
    requires inflight.downloads[key].sender == sender && inflight.downloads[key].metaTx == metaRx
    requires inflight.Sharing(key) == FRESH && inflight.Holders(key) == Holding(0, 2, 1)
    modifies inflight, inflight.Parts(key), cache, cache.disk, cache.disk.fs
    ensures inflight.Valid() && cache.Valid()
    ensures inflight.downloads == old(inflight.downloads) - {key}
    ensures cache.Contents() == StoredIn(old(cache.Contents()), cache.disk, key, EntryFor(upstream, config, world), world)
    ensures Answers(r, upstream, config, world)
  {
    hide TieredCache.Valid, TieredCache.Contents, EntryFor, StoredIn, Sent, DataOf, Announcement, Answer, Answers;
    var receiver := SubscribeAndSpawn(inflight, cache, key, sender, upstream, config, world);
    match metaRx.value {
      case Some(Published(meta)) =>
        var body := new StreamingBody(receiver, []);
        ServesEverything(body, meta, upstream, config, world);
        return Streaming(meta, body);
      case Some(Refusal(reason)) =>
        RefusesAll(reason, upstream, config, world);
        return ErrorPage(reason);
      case None => return ErrorPage("Request failed");
    }
  }

  /** Joins the download in flight or, if there is none, starts one. */
  method JoinOrDownload(inflight: InflightDownloads, cache: TieredCache, key: Key,
                        upstream: Upstream, config: Config, world: World) returns (r: Response)
    requires inflight.Valid() && cache.Valid()
    modifies inflight, inflight.Parts(key), cache, cache.disk, cache.disk.fs
    ensures inflight.Valid() && cache.Valid()
    ensures inflight.downloads == old(inflight.downloads)
    ensures key in inflight.downloads ==>
              && cache.Contents() == old(cache.Contents())
              && r.Joining? && r.receiver.channel == inflight.downloads[key].sender
              && r.receiver.next == |inflight.Sharing(key).ring|
              && r.initial == inflight.Sharing(key).accumulated == old(inflight.Sharing(key)).accumulated
    ensures key !in inflight.downloads ==>
              && Answers(r, upstream, config, world)
              && cache.Contents()
                 == StoredIn(old(cache.Contents()), cache.disk, key, EntryFor(upstream, config, world), world)
  {
    hide TieredCache.Valid, TieredCache.Contents, EntryFor, StoredIn, Answers;
    var action := inflight.JoinOrStartDownload(key);
    match action {
      case Joined(receiver, initial, metaRx) => return Joining(receiver, initial, metaRx);
      case Started(sender, metaRx) =>
        r := HandleStreamingDownload(inflight, cache, key, sender, metaRx, upstream, config, world);
        assert inflight.downloads == old(inflight.downloads);
    }
  }

  const UNREADABLE := "Failed to deserialize metadata"

  /** Answers from the cache if it can, and leaves the cache and the table as they should be either way. */
  method HandleCacheableRequest(inflight: InflightDownloads, cache: TieredCache, key: Key, first: nat, second: nat,
                                upstream: Upstream, config: Config, world: World) returns (r: Response)
    requires inflight.Valid() && cache.Valid()
    modifies inflight, inflight.Parts(key), cache, cache.disk, cache.disk.fs
    ensures inflight.Valid() && cache.Valid()
    ensures inflight.downloads == old(inflight.downloads)
    ensures
      var (tiers, read) := LookUp(old(cache.Contents()), key, first, second);
      match read
      case Hit(entry) => r == FromCache(entry) && cache.Contents() == tiers
      case Corrupt => r == ErrorPage(UNREADABLE) && cache.Contents() == tiers
      case Miss =>
        if key in inflight.downloads then
          && cache.Contents() == tiers
          && r.Joining? && r.receiver.channel == inflight.downloads[key].sender
          && r.receiver.next == |inflight.Sharing(key).ring|
          && r.initial == inflight.Sharing(key).accumulated == old(inflight.Sharing(key)).accumulated
        else
          && Answers(r, upstream, config, world)
          && cache.Contents() == StoredIn(tiers, cache.disk, key, EntryFor(upstream, config, world), world)
  {
    hide TieredCache.Valid, TieredCache.Contents, EntryFor, StoredIn, LookUp, Answers;
    var read := cache.Get(key, first, second);
    match read {
      case Hit(entry) => return FromCache(entry);
      case Corrupt => return ErrorPage(UNREADABLE);
      case Miss => r := JoinOrDownload(inflight, cache, key, upstream, config, world);
    }
  }

  lemma ServesEverything(body: StreamingBody, meta: ResponseMeta, upstream: Upstream, config: Config, world: World)
    requires Answer(upstream, config, world) == Published(meta) && body.Progress() == Body([], 0, 0, false)
    requires
      var channel := body.stream.channel;
      && channel.senders == 0 && DataOf(channel.stored) == Sent(upstream, config)
      && |channel.stored| == |Sent(upstream, config)| + 1
      && Last(channel.stored) == Announcement(upstream, config)
    ensures Answers(Streaming(meta, body), upstream, config, world)
  {
    hide Answer, Sent, Announcement;
    NothingRead(body.stream.channel.stored);
  }

  lemma RefusesAll(reason: string, upstream: Upstream, config: Config, world: World)
    requires Answer(upstream, config, world) == Refusal(reason)
    ensures Answers(ErrorPage(reason), upstream, config, world)
  {
  }

  lemma NothingRead(ring: seq<Message>)
    ensures Outstanding(Body([], 0, 0, false), ring) == DataOf(ring)
  {
    assert ring[0..] == ring;
  }
}
