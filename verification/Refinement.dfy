/**
 The task that the methods carry out is one of the runs of the state machine, and
 leaves behind exactly what the methods leave; the theorems about all runs are
 therefore about it too.
 */
module Refinement {
  import opened Common
  import opened Streaming
  import opened Protocol
  import opened ProtocolInvariant
  import opened ProtocolTheorems
  import opened Headers
  import opened Freshness
  import opened Inflight
  import opened Handler

  /** Everything but one generation is as it was. */
  ghost predicate OnlyGen(s: State, t: State, g: nat) {
    s.IsGen(g) && t.IsGen(g) && t == s.(gens := s.gens[g := t.gens[g]])
  }

  /** Who holds on to the channels, as far as it matters: whether anybody does. */
  ghost function HoldersOf(s: State, g: nat): Holding {
    Holding(if s.ReceiverLive(g) then 1 else 0, 2, if s.MetaReceiverLive(g) then 1 else 0)
  }

  lemma OnlyGenTwice(s: State, t: State, u: State, g: nat)
    requires OnlyGen(s, t, g) && OnlyGen(t, u, g)
    ensures OnlyGen(s, u, g)
  {
    assert s.gens[g := t.gens[g]][g := u.gens[g]] == s.gens[g := u.gens[g]];
  }

  lemma SameHolders(s: State, t: State, g: nat)
    requires t.clients == s.clients
    ensures t.ReceiverLive(g) == s.ReceiverLive(g) && t.MetaReceiverLive(g) == s.MetaReceiverLive(g)
  {
  }

  lemma ChunkIsPushed(s: State, g: nat, chunk: Bytes)
    requires Inv(s) && s.IsGen(g) && s.gens[g].phase.Reading? && s.writer.None?
    requires s.gens[g].fetch.Fits(chunk, s.maxBody)
    ensures Enabled(s, Push(g, chunk))
    ensures
      var t := Next(s, Push(g, chunk));
      && Inv(t) && g !in s.readers
      && t == s.(readers := s.readers + {g}, gens := s.gens[g := s.gens[g].(
                 phase := Offering(chunk), shared := s.gens[g].shared.Push(chunk),
                 fetch := s.gens[g].fetch.Take(chunk))])
  {
    hide ClientOk, GenOk;
    LookupListed(s, g);
    InvNext(s, Push(g, chunk));
  }

  lemma ChunkIsSent(s: State, g: nat)
    requires Inv(s) && s.IsGen(g) && s.gens[g].phase.Offering?
    ensures Enabled(s, Send(g))
    ensures
      var t := Next(s, Send(g));
      && Inv(t)
      && t == s.(readers := s.readers - {g}, gens := s.gens[g := s.gens[g].(
                 phase := Reading,
                 shared := s.gens[g].shared.Send(Data(s.gens[g].phase.chunk), s.ReceiverLive(g)))])
  {
    hide ClientOk, GenOk;
    LookupListed(s, g);
    InvNext(s, Send(g));
  }

  /** One chunk is pushed and sent. */
  lemma ChunkIsTwoSteps(s: State, g: nat, chunk: Bytes)
    requires Inv(s) && s.IsGen(g) && s.gens[g].phase.Reading? && s.writer.None?
    requires s.gens[g].fetch.Fits(chunk, s.maxBody)
    ensures
      var run := [Push(g, chunk)] + [Send(g)];
      && ValidRun(s, run)
      && var t := Exec(s, run);
      && Inv(t) && OnlyGen(s, t, g)
      && t.gens[g] == s.gens[g].(shared := s.gens[g].shared.Push(chunk).Send(Data(chunk), s.ReceiverLive(g)),
                                 fetch := s.gens[g].fetch.Take(chunk))
  {
    hide Inv, Enabled, Next;
    var t := (ChunkIsPushed(s, g, chunk); Next(s, Push(g, chunk)));
    Snoc(s, [], Push(g, chunk));
    assert [] + [Push(g, chunk)] == [Push(g, chunk)];
    ChunkIsSent(t, g);
    Snoc(s, [Push(g, chunk)], Send(g));
    SameHolders(s, t, g);
    assert s.readers + {g} - {g} == s.readers;
  }

  // ---------------------------------------------------------------- joining and starting

  /** Starting makes a fresh download, with its first client subscribed before the task can do anything. */
  lemma StartingIsARun(s: State, key: Key) returns (run: seq<Step>)
    requires s.LockFree() && key !in s.downloads
    ensures ValidRun(s, run)
    ensures
      var g, c := |s.gens|, |s.clients|;
      var fetch := Fetch(false, ResponseMeta(0, []), 0, []);
      Exec(s, run) == s.(
        downloads := s.downloads[key := g],
        gens := s.gens + [Generation(key, c, FRESH, Fetching, fetch, None, false, false)],
        clients := s.clients + [Client(key, Waiting, g, Body([], 0, 0, false), [], Open, false)])
  {
    var c := |s.clients|;
    Snoc(s, [], Arrive(key));
    run := [] + [Arrive(key)];
    Snoc(s, run, Insert(c));
    run := run + [Insert(c)];
    Snoc(s, run, Listen(c));
    run := run + [Listen(c)];
    Snoc(s, run, Spawn(c));
    run := run + [Spawn(c)];
  }

  // ---------------------------------------------------------------- the task

  /** What the chunk loop has after taking all the chunks. */
  function Collected(fetch: Fetch, chunks: seq<Bytes>): Fetch {
    fetch.(total := fetch.total + |Concat(chunks)|,
           buffer := if fetch.cacheable then fetch.buffer + Concat(chunks) else fetch.buffer)
  }

  lemma CollectedSnoc(fetch: Fetch, chunks: seq<Bytes>, chunk: Bytes)
    ensures Collected(fetch, chunks + [chunk]) == Collected(fetch, chunks).Take(chunk)
  {
    hide Concat;
    ConcatSnoc(chunks, chunk);
    var data, before := Concat(chunks), fetch.buffer;
    assert before + (data + chunk) == before + data + chunk;
  }

  /** So are all chunks, one after the other. */
  lemma {:induction false} ChunksAreARun(s: State, g: nat, chunks: seq<Bytes>) returns (run: seq<Step>)
    requires Inv(s) && s.IsGen(g) && s.gens[g].phase.Reading? && s.writer.None?
    requires s.gens[g].fetch.total + |Concat(chunks)| <= s.maxBody
    ensures ValidRun(s, run)
    ensures
      var t := Exec(s, run);
      && Inv(t) && OnlyGen(s, t, g)
      && t.gens[g] == s.gens[g].(shared := AddAll(s.gens[g].shared, chunks, s.ReceiverLive(g)),
                                 fetch := Collected(s.gens[g].fetch, chunks))
  {
    if chunks == [] {
      run := [];
    } else {
      hide Inv, Enabled, Next, AddAll, Collected;
      var some, chunk := chunks[..|chunks| - 1], Last(chunks);
      assert chunks == some + [chunk];
      CollectedSnoc(s.gens[g].fetch, some, chunk);
      AddAllSnoc(s.gens[g].shared, some, chunk, s.ReceiverLive(g));
      StillFits(s.gens[g].fetch, some, chunk, s.maxBody);
      var before := ChunksAreARun(s, g, some);
      var t := Exec(s, before);
      SameHolders(s, t, g);
      ChunkIsTwoSteps(t, g, chunk);
      run := before + ([Push(g, chunk)] + [Send(g)]);
      RunAppend(s, before, [Push(g, chunk)] + [Send(g)]);
      OnlyGenTwice(s, t, Exec(s, run), g);
    }
  }

  lemma StillFits(fetch: Fetch, chunks: seq<Bytes>, chunk: Bytes, maxBody: nat)
    requires fetch.total + |Concat(chunks + [chunk])| <= maxBody
    ensures fetch.total + |Concat(chunks)| <= maxBody && Collected(fetch, chunks).Fits(chunk, maxBody)
  {
    ConcatSnoc(chunks, chunk);
  }

  lemma HeadersArePublished(s: State, g: nat, meta: ResponseMeta, cacheable: bool)
    requires Inv(s) && s.IsGen(g) && s.gens[g].phase.Fetching? && s.writer.None?
    ensures Enabled(s, PublishMeta(g, meta, cacheable)) && s.gens[g].stored.None?
    ensures
      var t := Next(s, PublishMeta(g, meta, cacheable));
      && Inv(t) && OnlyGen(s, t, g) && t.clients == s.clients
      && t.gens[g].phase.Reading? && t.gens[g].stored.None?
      && t.gens[g].fetch == Fetch(cacheable, meta, 0, [])
      && t.gens[g].shared == s.gens[g].shared.SetMeta(Published(meta), s.MetaReceiverLive(g))
  {
    hide ClientOk;
    assert GenOk(s.gens[g], s.maxBody);
    hide GenOk;
    LookupListed(s, g);
    InvNext(s, PublishMeta(g, meta, cacheable));
  }

  /** A task that got an answer reads it to the point where the methods stop. */
  lemma ReadingIsARun(s: State, g: nat, upstream: Upstream, config: Config, world: World) returns (run: seq<Step>)
    requires Inv(s) && s.IsGen(g) && s.gens[g].phase.Fetching? && s.writer.None?
    requires s.maxBody == config.maxBody && upstream.Answered?
    ensures ValidRun(s, run)
    ensures
      var t := Exec(s, run);
      && Inv(t) && OnlyGen(s, t, g) && t.gens[g].phase.Reading?
      && t.gens[g].shared == SharedAfter(s.gens[g].shared, upstream, config, world, HoldersOf(s, g))
      && t.gens[g].stored.None?
      && t.gens[g].fetch.meta == ResponseMeta(upstream.status, world.listed(Filtered(upstream.headers)))
      && t.gens[g].fetch.cacheable == Cacheable(upstream.status, Filtered(upstream.headers))
      && (t.gens[g].fetch.cacheable ==> t.gens[g].fetch.buffer == Concat(Taken(upstream.body, config.maxBody)))
  {
    hide Inv, Enabled, Next, AddAll, Filters, Cacheable, Concat, Taken, Stop, Payloads;
    var meta := ResponseMeta(upstream.status, world.listed(Filtered(upstream.headers)));
    var cacheable := Cacheable(upstream.status, Filtered(upstream.headers));
    var step := PublishMeta(g, meta, cacheable);
    HeadersArePublished(s, g, meta, cacheable);
    var t := Next(s, step);
    Snoc(s, [], step);
    assert [] + [step] == [step];
    SameHolders(s, t, g);
    TakenWithinLimit(upstream.body, config.maxBody);
    var chunks := ChunksAreARun(t, g, Taken(upstream.body, config.maxBody));
    RunAppend(s, [step], chunks);
    OnlyGenTwice(s, t, Exec(t, chunks), g);
    run := [step] + chunks;
  }

  /** From there, or from a failed request, the fetch returns what the method returns and stores what it stores. */
  lemma FetchIsARun(s: State, g: nat, upstream: Upstream, config: Config, world: World) returns (run: seq<Step>)
    requires Inv(s) && s.IsGen(g) && s.gens[g].phase.Fetching? && s.writer.None?
    requires s.maxBody == config.maxBody
    ensures ValidRun(s, run)
    ensures
      var t := Exec(s, run);
      && Inv(t) && OnlyGen(s, t, g)
      && t.gens[g].phase == Returned(match FailureOf(upstream, config) case None => Succeeded case Some(r) => Failed(r))
      && t.gens[g].shared == SharedAfter(s.gens[g].shared, upstream, config, world, HoldersOf(s, g))
      && t.gens[g].stored == EntryFor(upstream, config, world)
  {
    hide ClientOk, Taken, Filtered, Lifetime, Cacheable, Concat;
    var failure := FailureOf(upstream, config);
    assert s.gens[g].stored.None? by { assert GenOk(s.gens[g], s.maxBody); }
    hide GenOk;
    var before: seq<Step> := [];
    if upstream.Answered? { before := ReadingIsARun(s, g, upstream, config, world); }
    var t := Exec(s, before);
    var step;
    if failure.Some? {
      step := FetchFails(g, failure.value);
    } else {
      step := BodyEnds(g, world.storedAt, Lifetime(Filtered(upstream.headers), config, world));
    }
    Snoc(s, before, step);
    InvNext(t, step);
    run := before + [step];
    OnlyGenTwice(s, t, Exec(s, run), g);
  }

  lemma ErrorIsNoted(s: State, g: nat, reason: string)
    requires Inv(s) && s.IsGen(g) && s.writer.None? && s.gens[g].phase == Returned(Failed(reason))
    ensures Enabled(s, NoteError(g))
    ensures
      var t := Next(s, NoteError(g));
      && Inv(t) && OnlyGen(s, t, g) && t.gens[g].phase == ErrorNoted(reason)
      && t.gens[g].shared == s.gens[g].shared.SetMeta(Refusal(reason), s.MetaReceiverLive(g))
      && t.gens[g].stored == s.gens[g].stored
  {
    hide ClientOk, GenOk;
    LookupListed(s, g);
    InvNext(s, NoteError(g));
  }

  lemma ErrorIsAnnounced(s: State, g: nat, reason: string)
    requires Inv(s) && s.IsGen(g) && s.gens[g].phase == ErrorNoted(reason)
    ensures Enabled(s, AnnounceError(g))
    ensures
      var t := Next(s, AnnounceError(g));
      && Inv(t) && OnlyGen(s, t, g) && t.gens[g].phase == Announced(Failed(reason))
      && t.gens[g].shared == s.gens[g].shared.Send(Error(reason), s.ReceiverLive(g))
      && t.gens[g].stored == s.gens[g].stored
  {
    hide ClientOk, GenOk;
    InvNext(s, AnnounceError(g));
  }

  lemma ErrorIsTwoSteps(s: State, g: nat, reason: string)
    requires Inv(s) && s.IsGen(g) && s.writer.None? && s.gens[g].phase == Returned(Failed(reason))
    ensures
      var run := [NoteError(g)] + [AnnounceError(g)];
      && ValidRun(s, run)
      && var t := Exec(s, run);
      && Inv(t) && OnlyGen(s, t, g) && t.gens[g].phase == Announced(Failed(reason))
      && t.gens[g].shared == Finished(s.gens[g].shared, Some(reason), HoldersOf(s, g))
      && t.gens[g].stored == s.gens[g].stored
  {
    hide Inv, Enabled, Next;
    var t := (ErrorIsNoted(s, g, reason); Next(s, NoteError(g)));
    Snoc(s, [], NoteError(g));
    assert [] + [NoteError(g)] == [NoteError(g)];
    SameHolders(s, t, g);
    ErrorIsAnnounced(t, g, reason);
    Snoc(s, [NoteError(g)], AnnounceError(g));
    OnlyGenTwice(s, t, Next(t, AnnounceError(g)), g);
  }

  /** The announcements are the last two steps before the guard goes. */
  lemma AnnouncementIsARun(s: State, g: nat, failure: Option<string>) returns (run: seq<Step>)
    requires Inv(s) && s.IsGen(g) && s.writer.None?
    requires s.gens[g].phase == Returned(match failure case None => Succeeded case Some(r) => Failed(r))
    ensures run == if failure.None? then [AnnounceComplete(g)] else [NoteError(g), AnnounceError(g)]
    ensures ValidRun(s, run)
    ensures
      var t := Exec(s, run);
      && Inv(t) && OnlyGen(s, t, g) && t.gens[g].phase == Announced(s.gens[g].phase.outcome)
      && t.gens[g].shared == Finished(s.gens[g].shared, failure, HoldersOf(s, g))
      && t.gens[g].stored == s.gens[g].stored
  {
    hide ClientOk, GenOk;
    if failure.None? {
      Snoc(s, [], AnnounceComplete(g));
      InvNext(s, AnnounceComplete(g));
      run := [] + [AnnounceComplete(g)];
    } else {
      ErrorIsTwoSteps(s, g, failure.value);
      run := [NoteError(g)] + [AnnounceError(g)];
    }
  }

  /** The whole task. */
  lemma TaskIsARun(s: State, g: nat, upstream: Upstream, config: Config, world: World) returns (run: seq<Step>)
    requires Inv(s) && s.IsGen(g) && s.gens[g].phase.Fetching? && s.writer.None?
    requires s.maxBody == config.maxBody
    ensures ValidRun(s, run)
    ensures
      var t, holders, failure := Exec(s, run), HoldersOf(s, g), FailureOf(upstream, config);
      && OnlyGen(s, t, g)
      && t.gens[g].phase == Announced(match failure case None => Succeeded case Some(r) => Failed(r))
      && t.gens[g].shared
         == Finished(SharedAfter(s.gens[g].shared, upstream, config, world, holders), failure, holders)
      && t.gens[g].stored == EntryFor(upstream, config, world)
  {
    hide Inv, Enabled, Next, Finished, SharedAfter, EntryFor, FailureOf;
    var fetch := FetchIsARun(s, g, upstream, config, world);
    var t := Exec(s, fetch);
    SameHolders(s, t, g);
    var rest := AnnouncementIsARun(t, g, FailureOf(upstream, config));
    RunAppend(s, fetch, rest);
    run := fetch + rest;
    OnlyGenTwice(s, t, Exec(s, run), g);
  }
}
