/** What every step of the protocol keeps. */
module ProtocolInvariant {
  import opened Common
  import opened Streaming
  import opened Protocol

  /** The message that announces an outcome. */
  function Terminal(outcome: Outcome): Message
    requires !outcome.Panicked?
  {
    if outcome.Succeeded? then Complete else Error(outcome.reason)
  }

  /** Only the last message can be anything but data, and only once announced. */
  ghost predicate RingOk(ring: seq<Message>, phase: Phase) {
    forall i :: 0 <= i < |ring| && !ring[i].Data? ==>
      && i == |ring| - 1 && phase.Past()
      && !phase.Result().Panicked? && ring[i] == Terminal(phase.Result())
  }

  ghost predicate GenOk(gen: Generation, maxBody: nat) {
    var shared, phase, fetch := gen.shared, gen.phase, gen.fetch;
    && (phase.Unspawned? || phase.Fetching? ==>
          shared == FRESH && gen.stored.None? && !gen.headersOut && !gen.errorNoted
          && fetch.total == 0 && fetch.buffer == [])
    && shared.accumulated == shared.offered + (if phase.Offering? then [phase.chunk] else [])
    && RingOk(shared.ring, phase)
    && fetch.total == |Concat(shared.accumulated)| <= maxBody
    && (fetch.cacheable ==> fetch.buffer == Concat(shared.accumulated))
    && (phase.Returned? ==> !phase.outcome.Panicked? && !gen.errorNoted)
    && (gen.stored.Some? ==>
          phase.HasOutcome() && phase.Result().Succeeded?
          && gen.stored.value.data == Concat(shared.accumulated)
          && fetch.meta == ResponseMeta(gen.stored.value.status, gen.stored.value.headers))
    && (shared.meta.Some? ==>
          if shared.meta.value.Published? then gen.headersOut && shared.meta.value.meta == fetch.meta else gen.errorNoted)
    && (gen.headersOut ==> shared.meta.Some?)
    && (gen.errorNoted ==>
          && phase.HasOutcome() && phase.Result().Failed?
          && shared.meta == Some(Refusal(phase.Result().reason)))
  }

  /** The client got a response, if only its headers. */
  predicate Served(client: Client) {
    client.phase.Serving? || !client.end.Open? || client.received != []
  }

  /** What holds of a client that joined or started `gen`. */
  ghost predicate ClientOk(id: nat, client: Client, gen: Generation) {
    var body, shared := client.body, gen.shared;
    && client.key == gen.key
    && client.received <= shared.offered
    && (client.end.Open? <==> !body.finished)
    && (client.phase.HoldsReceiver() ==> body.index <= |body.initial| && body.next <= |shared.ring|)
    && (client.phase.Starting() ==>
          gen.initiator == id && gen.phase.Unspawned? && body == Body([], 0, 0, false) && !client.late)
    && (client.phase.HoldsLock() || client.phase.Starting() || client.phase.Waiting? ==>
          client.received == [] && client.end.Open?)
    && (client.phase.Subscribed? ==>
          body.initial == [] && body.index == 0 && DataOf(shared.ring[body.next..]) == [])
    && (client.phase.HoldsReceiver() && !client.phase.Subscribed? && client.end.Open? ==>
          client.received + Outstanding(body, shared.ring) == shared.offered)
    && (client.late ==> gen.phase.Past() && client.body.next == |shared.ring|)
    && (client.phase.HoldsReceiver() && client.end.Open? && !client.late
        && gen.phase.Past() && !gen.phase.Result().Panicked? ==>
          body.next < |shared.ring| && Last(shared.ring) == Terminal(gen.phase.Result()))
    && (Served(client) ==> gen.headersOut)
    && (client.late && Served(client) ==> !gen.errorNoted)
    && (client.end.ByComplete? ==>
          gen.phase.Past() && gen.phase.Result().Succeeded? && client.received == shared.offered)
    && (client.end.ByClosed? ==>
          && gen.phase.Ended?
          && (gen.phase.outcome.Succeeded? ==> client.late && client.received == shared.offered)
          && (gen.phase.outcome.Failed? ==> client.late))
  }

  ghost predicate LockOk(s: State) {
    && (forall g: nat :: g in s.readers <==> g < |s.gens| && s.gens[g].phase.Offering?)
    && (s.writer.Some? ==> s.readers == {} && s.IsClient(s.writer.value))
    && (forall c: nat :: c < |s.clients| ==>
          (s.clients[c].phase.HoldsLock() <==> s.writer == Some(c)))
  }

  ghost predicate TableOk(s: State) {
    && (forall key :: key in s.downloads ==>
          && s.downloads[key] < |s.gens|
          && s.gens[s.downloads[key]].key == key
          && s.gens[s.downloads[key]].phase.Listed())
    && (forall g: nat :: g < |s.gens| && s.gens[g].phase.Listed() ==>
          s.gens[g].key in s.downloads && s.downloads[s.gens[g].key] == g)
  }

  ghost predicate Inv(s: State) {
    && LockOk(s)
    && TableOk(s)
    && (forall g: nat :: g < |s.gens| ==> GenOk(s.gens[g], s.maxBody))
    && (forall c: nat :: c < |s.clients| && !s.clients[c].phase.Acquired? ==>
          s.IsGen(s.clients[c].gen) && ClientOk(c, s.clients[c], s.gens[s.clients[c].gen]))
    && (forall c: nat :: c < |s.clients| && s.clients[c].phase.Acquired? ==>
          s.clients[c] == Client(s.clients[c].key, Acquired, 0, Body([], 0, 0, false), [], Open, false))
  }

  // ---------------------------------------------------------------- one generation changes

  /** A step that changes one generation only has that generation and its clients to answer for. */
  lemma ReplaceGen(s: State, t: State, g: nat, gen: Generation)
    requires Inv(s) && s.IsGen(g)
    requires t.gens == s.gens[g := gen] && t.clients == s.clients && t.maxBody == s.maxBody
    requires GenOk(gen, s.maxBody)
    requires forall c: nat :: c < |s.clients| && !s.clients[c].phase.Acquired? && s.clients[c].gen == g ==>
               ClientOk(c, s.clients[c], gen)
    requires LockOk(t) && TableOk(t)
    ensures Inv(t)
  {
    forall c: nat | c < |t.clients| && !t.clients[c].phase.Acquired?
      ensures t.IsGen(t.clients[c].gen) && ClientOk(c, t.clients[c], t.gens[t.clients[c].gen])
    {
      assert ClientOk(c, s.clients[c], s.gens[s.clients[c].gen]);
    }
  }

  /** A step that changes one client only has that client to answer for. */
  lemma ReplaceClient(s: State, t: State, c: nat, client: Client)
    requires Inv(s) && s.IsClient(c) && !client.phase.Acquired? && s.IsGen(client.gen)
    requires t.clients == s.clients[c := client] && t.gens == s.gens && t.maxBody == s.maxBody
    requires t.downloads == s.downloads
    requires ClientOk(c, client, s.gens[client.gen])
    requires LockOk(t)
    ensures Inv(t)
  {
    forall d: nat | d < |t.clients| && !t.clients[d].phase.Acquired?
      ensures t.IsGen(t.clients[d].gen) && ClientOk(d, t.clients[d], t.gens[t.clients[d].gen])
    {
      if d != c {
        assert ClientOk(d, s.clients[d], s.gens[s.clients[d].gen]);
      }
    }
  }

  /** In the table a key leads to its one listed generation. */
  lemma LookupListed(s: State, g: nat)
    requires TableOk(s) && s.IsGen(g)
    ensures s.gens[g].phase.Listed() <==> s.InTable(g)
  {
  }

  /** The task sends the chunk it pushed, or the message that ends the download. */
  predicate Announces(before: Phase, m: Message, after: Phase) {
    if before.Offering? then m == Data(before.chunk) && after.Reading?
    else !before.Past() && after.Announced? && !after.outcome.Panicked? && m == Terminal(after.outcome)
  }

  /** A client with a live receiver finds the message at the end of its channel. */
  lemma SentToClient(id: nat, client: Client, gen: Generation, m: Message, after: Generation)
    requires ClientOk(id, client, gen) && !client.phase.Starting()
    requires after == gen.(shared := gen.shared.Send(m, true), phase := after.phase, fetch := after.fetch)
    requires Announces(gen.phase, m, after.phase)
    requires client.phase.Subscribed? ==> !m.Data?
    ensures ClientOk(id, client, after)
  {
    hide DataOf, Concat;
    var ring := gen.shared.ring;
    if client.phase.HoldsReceiver() {
      assert (ring + [m])[client.body.next..] == ring[client.body.next..] + [m];
      DataOfSnoc(ring[client.body.next..], m);
    }
  }

  /** A client without a receiver does not notice. */
  lemma SentPastClient(id: nat, client: Client, gen: Generation, m: Message, live: bool, after: Generation)
    requires ClientOk(id, client, gen) && !client.phase.HoldsReceiver() && !client.phase.Starting()
    requires after == gen.(shared := gen.shared.Send(m, live), phase := after.phase, fetch := after.fetch)
    requires Announces(gen.phase, m, after.phase)
    ensures ClientOk(id, client, after)
  {
  }

  lemma ClientsAfterSend(s: State, g: nat, m: Message, after: Generation)
    requires Inv(s) && s.IsGen(g) && !s.gens[g].phase.Unspawned?
    requires after == s.gens[g].(
      shared := s.gens[g].shared.Send(m, s.ReceiverLive(g)), phase := after.phase, fetch := after.fetch)
    requires Announces(s.gens[g].phase, m, after.phase)
    ensures forall c: nat :: c < |s.clients| && !s.clients[c].phase.Acquired? && s.clients[c].gen == g ==>
              ClientOk(c, s.clients[c], after)
  {
    forall c: nat | c < |s.clients| && !s.clients[c].phase.Acquired? && s.clients[c].gen == g
      ensures ClientOk(c, s.clients[c], after)
    {
      var client := s.clients[c];
      assert ClientOk(c, client, s.gens[g]);
      if client.phase.HoldsReceiver() {
        assert s.ReceiverLive(g);
        SentToClient(c, client, s.gens[g], m, after);
      } else {
        SentPastClient(c, client, s.gens[g], m, s.ReceiverLive(g), after);
      }
    }
  }

  /** Before its outcome is announced, a client sees of a generation only what the channel got. */
  lemma ClientsUnaware(s: State, g: nat, after: Generation)
    requires Inv(s) && s.IsGen(g) && !s.gens[g].phase.Unspawned? && !s.gens[g].phase.Past()
    requires !after.phase.Unspawned? && !after.phase.Past() && after.key == s.gens[g].key
    requires after.shared.offered == s.gens[g].shared.offered && after.shared.ring == s.gens[g].shared.ring
    requires s.gens[g].headersOut ==> after.headersOut
    ensures forall c: nat :: c < |s.clients| && !s.clients[c].phase.Acquired? && s.clients[c].gen == g ==>
              ClientOk(c, s.clients[c], after)
  {
    forall c: nat | c < |s.clients| && !s.clients[c].phase.Acquired? && s.clients[c].gen == g
      ensures ClientOk(c, s.clients[c], after)
    {
      assert ClientOk(c, s.clients[c], s.gens[g]);
    }
  }

  /** Letting go of the guard and then of the sender changes nothing a client relies on. */
  lemma ClientsAfterLettingGo(s: State, g: nat, after: Phase)
    requires Inv(s) && s.IsGen(g) && s.gens[g].phase.Past() && !s.gens[g].phase.Ended?
    requires after.Past() && after.outcome == s.gens[g].phase.outcome
    ensures GenOk(s.gens[g].(phase := after), s.maxBody)
    ensures forall c: nat :: c < |s.clients| && !s.clients[c].phase.Acquired? && s.clients[c].gen == g ==>
              ClientOk(c, s.clients[c], s.gens[g].(phase := after))
  {
    forall c: nat | c < |s.clients| && !s.clients[c].phase.Acquired? && s.clients[c].gen == g
      ensures ClientOk(c, s.clients[c], s.gens[g].(phase := after))
    {
      assert ClientOk(c, s.clients[c], s.gens[g]);
    }
  }

  // ---------------------------------------------------------------- steps of the task

  lemma PublishedOk(gen: Generation, meta: ResponseMeta, cacheable: bool, live: bool, maxBody: nat)
    requires GenOk(gen, maxBody) && gen.phase.Fetching?
    ensures GenOk(gen.(shared := gen.shared.SetMeta(Published(meta), live), phase := Reading,
                       fetch := Fetch(cacheable, meta, 0, []), headersOut := live), maxBody)
    ensures !gen.headersOut
  {
  }

  lemma PushedOk(gen: Generation, chunk: Bytes, maxBody: nat)
    requires GenOk(gen, maxBody) && gen.phase.Reading? && gen.fetch.Fits(chunk, maxBody)
    ensures GenOk(gen.(shared := gen.shared.Push(chunk), phase := Offering(chunk),
                       fetch := gen.fetch.Take(chunk)), maxBody)
  {
    ConcatSnoc(gen.shared.accumulated, chunk);
  }

  lemma SentOk(gen: Generation, live: bool, maxBody: nat)
    requires GenOk(gen, maxBody) && gen.phase.Offering?
    ensures GenOk(gen.(shared := gen.shared.Send(Data(gen.phase.chunk), live), phase := Reading), maxBody)
  {
  }

  lemma NotedOk(gen: Generation, live: bool, maxBody: nat)
    requires GenOk(gen, maxBody) && gen.phase.Returned? && gen.phase.outcome.Failed?
    ensures
      var reason := gen.phase.outcome.reason;
      GenOk(gen.(shared := gen.shared.SetMeta(Refusal(reason), live),
                 phase := ErrorNoted(reason), errorNoted := live), maxBody)
  {
  }

  lemma AnnouncedOk(gen: Generation, live: bool, outcome: Outcome, maxBody: nat)
    requires GenOk(gen, maxBody) && !outcome.Panicked?
    requires if outcome.Succeeded? then gen.phase == Returned(Succeeded) else gen.phase == ErrorNoted(outcome.reason)
    ensures GenOk(gen.(shared := gen.shared.Send(Terminal(outcome), live), phase := Announced(outcome)), maxBody)
  {
  }

  lemma InvPublishMeta(s: State, g: nat, meta: ResponseMeta, cacheable: bool)
    requires Inv(s) && Enabled(s, PublishMeta(g, meta, cacheable))
    ensures Inv(Next(s, PublishMeta(g, meta, cacheable)))
  {
    hide ClientOk, GenOk;
    var t := Next(s, PublishMeta(g, meta, cacheable));
    LookupListed(s, g);
    PublishedOk(s.gens[g], meta, cacheable, s.MetaReceiverLive(g), s.maxBody);
    ClientsUnaware(s, g, t.gens[g]);
    ReplaceGen(s, t, g, t.gens[g]);
  }

  lemma InvPush(s: State, g: nat, chunk: Bytes)
    requires Inv(s) && Enabled(s, Push(g, chunk))
    ensures Inv(Next(s, Push(g, chunk)))
  {
    hide ClientOk, GenOk;
    var t := Next(s, Push(g, chunk));
    LookupListed(s, g);
    PushedOk(s.gens[g], chunk, s.maxBody);
    ClientsUnaware(s, g, t.gens[g]);
    ReplaceGen(s, t, g, t.gens[g]);
  }

  lemma InvSend(s: State, g: nat)
    requires Inv(s) && Enabled(s, Send(g))
    ensures Inv(Next(s, Send(g)))
  {
    hide ClientOk, GenOk;
    var t := Next(s, Send(g));
    LookupListed(s, g);
    SentOk(s.gens[g], s.ReceiverLive(g), s.maxBody);
    ClientsAfterSend(s, g, Data(s.gens[g].phase.chunk), t.gens[g]);
    ReplaceGen(s, t, g, t.gens[g]);
  }

  lemma InvBodyEnds(s: State, g: nat, timestamp: nat, ttl: Option<nat>)
    requires Inv(s) && Enabled(s, BodyEnds(g, timestamp, ttl))
    ensures Inv(Next(s, BodyEnds(g, timestamp, ttl)))
  {
    hide Concat;
    hide ClientOk;
    var t := Next(s, BodyEnds(g, timestamp, ttl));
    ClientsUnaware(s, g, t.gens[g]);
    ReplaceGen(s, t, g, t.gens[g]);
  }

  lemma InvFetchFails(s: State, g: nat, reason: string)
    requires Inv(s) && Enabled(s, FetchFails(g, reason))
    ensures Inv(Next(s, FetchFails(g, reason)))
  {
    hide Concat;
    hide ClientOk;
    var t := Next(s, FetchFails(g, reason));
    ClientsUnaware(s, g, t.gens[g]);
    ReplaceGen(s, t, g, t.gens[g]);
  }

  lemma InvAnnounceComplete(s: State, g: nat)
    requires Inv(s) && Enabled(s, AnnounceComplete(g))
    ensures Inv(Next(s, AnnounceComplete(g)))
  {
    hide ClientOk, GenOk;
    var t := Next(s, AnnounceComplete(g));
    AnnouncedOk(s.gens[g], s.ReceiverLive(g), Succeeded, s.maxBody);
    ClientsAfterSend(s, g, Complete, t.gens[g]);
    ReplaceGen(s, t, g, t.gens[g]);
  }

  lemma InvNoteError(s: State, g: nat)
    requires Inv(s) && Enabled(s, NoteError(g))
    ensures Inv(Next(s, NoteError(g)))
  {
    hide ClientOk, GenOk;
    var t := Next(s, NoteError(g));
    LookupListed(s, g);
    NotedOk(s.gens[g], s.MetaReceiverLive(g), s.maxBody);
    ClientsUnaware(s, g, t.gens[g]);
    ReplaceGen(s, t, g, t.gens[g]);
  }

  lemma InvAnnounceError(s: State, g: nat)
    requires Inv(s) && Enabled(s, AnnounceError(g))
    ensures Inv(Next(s, AnnounceError(g)))
  {
    hide ClientOk, GenOk;
    var t := Next(s, AnnounceError(g));
    var reason := s.gens[g].phase.reason;
    AnnouncedOk(s.gens[g], s.ReceiverLive(g), Failed(reason), s.maxBody);
    ClientsAfterSend(s, g, Error(reason), t.gens[g]);
    ReplaceGen(s, t, g, t.gens[g]);
  }

  lemma ClientsOfPanicked(s: State, g: nat)
    requires Inv(s) && Enabled(s, Panic(g))
    ensures forall c: nat :: c < |s.clients| && !s.clients[c].phase.Acquired? && s.clients[c].gen == g ==>
              ClientOk(c, s.clients[c], s.gens[g].(phase := Announced(Panicked)))
  {
    hide GenOk;
    forall c: nat | c < |s.clients| && !s.clients[c].phase.Acquired? && s.clients[c].gen == g
      ensures ClientOk(c, s.clients[c], s.gens[g].(phase := Announced(Panicked)))
    {
      assert ClientOk(c, s.clients[c], s.gens[g]);
    }
  }

  lemma InvPanic(s: State, g: nat)
    requires Inv(s) && Enabled(s, Panic(g))
    ensures Inv(Next(s, Panic(g)))
  {
    hide ClientOk;
    var t := Next(s, Panic(g));
    ClientsOfPanicked(s, g);
    ReplaceGen(s, t, g, t.gens[g]);
  }

  lemma InvDropGuard(s: State, g: nat)
    requires Inv(s) && Enabled(s, DropGuard(g))
    ensures Inv(Next(s, DropGuard(g)))
  {
    hide ClientOk, GenOk;
    var t := Next(s, DropGuard(g));
    ClientsAfterLettingGo(s, g, t.gens[g].phase);
    ReplaceGen(s, t, g, t.gens[g]);
  }

  lemma InvDropSender(s: State, g: nat)
    requires Inv(s) && Enabled(s, DropSender(g))
    ensures Inv(Next(s, DropSender(g)))
  {
    hide ClientOk, GenOk;
    var t := Next(s, DropSender(g));
    ClientsAfterLettingGo(s, g, t.gens[g].phase);
    ReplaceGen(s, t, g, t.gens[g]);
  }

  // ---------------------------------------------------------------- steps of a client

  lemma InvArrive(s: State, key: Key)
    requires Inv(s) && Enabled(s, Arrive(key))
    ensures Inv(Next(s, Arrive(key)))
  {
    hide ClientOk, GenOk;
    var t := Next(s, Arrive(key));
    forall c: nat | c < |t.clients| && !t.clients[c].phase.Acquired?
      ensures t.IsGen(t.clients[c].gen) && ClientOk(c, t.clients[c], t.gens[t.clients[c].gen])
    {
      assert t.clients[c] == s.clients[c];
      assert ClientOk(c, s.clients[c], s.gens[s.clients[c].gen]);
    }
  }

  lemma InvSubscribe(s: State, c: nat)
    requires Inv(s) && Enabled(s, Subscribe(c))
    ensures Inv(Next(s, Subscribe(c)))
  {
    var t := Next(s, Subscribe(c));
    var gen := s.gens[t.clients[c].gen];
    assert gen.shared.ring[|gen.shared.ring|..] == [];
    ReplaceClient(s, t, c, t.clients[c]);
  }

  lemma InvCopyAccumulated(s: State, c: nat)
    requires Inv(s) && Enabled(s, CopyAccumulated(c))
    ensures Inv(Next(s, CopyAccumulated(c)))
  {
    var t := Next(s, CopyAccumulated(c));
    assert s.clients[c].gen !in s.readers;
    ReplaceClient(s, t, c, t.clients[c]);
  }

  lemma InvSubscribeMeta(s: State, c: nat)
    requires Inv(s) && Enabled(s, SubscribeMeta(c))
    ensures Inv(Next(s, SubscribeMeta(c)))
  {
    var t := Next(s, SubscribeMeta(c));
    ReplaceClient(s, t, c, t.clients[c]);
  }

  lemma NewlyInsertedOk(id: nat, client: Client, g: nat, maxBody: nat)
    requires client == Client(client.key, Acquired, 0, Body([], 0, 0, false), [], Open, false)
    ensures
      var gen := Generation(client.key, id, FRESH, Unspawned, Fetch(false, ResponseMeta(0, []), 0, []), None, false, false);
      GenOk(gen, maxBody) && ClientOk(id, client.(phase := Inserted, gen := g), gen)
  {
  }

  lemma InvInsert(s: State, c: nat)
    requires Inv(s) && Enabled(s, Insert(c))
    ensures Inv(Next(s, Insert(c)))
  {
    hide ClientOk, GenOk;
    var t := Next(s, Insert(c));
    NewlyInsertedOk(c, s.clients[c], |s.gens|, s.maxBody);
    forall d: nat | d < |t.clients| && !t.clients[d].phase.Acquired?
      ensures t.IsGen(t.clients[d].gen) && ClientOk(d, t.clients[d], t.gens[t.clients[d].gen])
    {
      if d != c {
        assert ClientOk(d, s.clients[d], s.gens[s.clients[d].gen]);
        assert t.gens[t.clients[d].gen] == s.gens[s.clients[d].gen];
      }
    }
    forall g: nat | g < |t.gens|
      ensures GenOk(t.gens[g], t.maxBody)
    {
      if g < |s.gens| {
        assert t.gens[g] == s.gens[g];
        assert GenOk(s.gens[g], s.maxBody);
      }
    }
    assert TableOk(t) by {
      assert forall g: nat :: g < |s.gens| ==> t.gens[g] == s.gens[g];
    }
  }

  lemma InvListen(s: State, c: nat)
    requires Inv(s) && Enabled(s, Listen(c))
    ensures Inv(Next(s, Listen(c)))
  {
    var t := Next(s, Listen(c));
    ReplaceClient(s, t, c, t.clients[c]);
  }

  /** Only the client that inserted a generation is ever about to spawn it. */
  lemma SoleStarter(s: State, c: nat, d: nat)
    requires Inv(s) && s.IsClient(c) && s.IsClient(d)
    requires s.clients[c].phase.Starting() && s.clients[d].phase.Starting()
    requires s.clients[c].gen == s.clients[d].gen
    ensures c == d
  {
    assert ClientOk(c, s.clients[c], s.gens[s.clients[c].gen]);
  }

  lemma SpawnedOk(id: nat, client: Client, gen: Generation)
    requires ClientOk(id, client, gen) && gen.phase.Unspawned?
    ensures !client.phase.Starting() ==> ClientOk(id, client, gen.(phase := Fetching))
    ensures client.phase.Listening? ==> ClientOk(id, client.(phase := Waiting), gen.(phase := Fetching))
  {
  }

  lemma SpawnedGenOk(gen: Generation, maxBody: nat)
    requires GenOk(gen, maxBody) && gen.phase.Unspawned?
    ensures GenOk(gen.(phase := Fetching), maxBody)
  {
  }

  lemma InvSpawn(s: State, c: nat)
    requires Inv(s) && Enabled(s, Spawn(c))
    ensures Inv(Next(s, Spawn(c)))
  {
    hide GenOk;
    var t := Next(s, Spawn(c));
    var g := s.clients[c].gen;
    assert ClientOk(c, s.clients[c], s.gens[g]);
    forall d: nat | d < |t.clients| && !t.clients[d].phase.Acquired?
      ensures t.IsGen(t.clients[d].gen) && ClientOk(d, t.clients[d], t.gens[t.clients[d].gen])
    {
      assert ClientOk(d, s.clients[d], s.gens[s.clients[d].gen]);
      if s.clients[d].gen == g {
        if s.clients[d].phase.Starting() { SoleStarter(s, c, d); }
        SpawnedOk(d, s.clients[d], s.gens[g]);
      }
    }
    SpawnedGenOk(s.gens[g], s.maxBody);
  }

  lemma InvReadMeta(s: State, c: nat)
    requires Inv(s) && Enabled(s, ReadMeta(c))
    ensures Inv(Next(s, ReadMeta(c)))
  {
    var t := Next(s, ReadMeta(c));
    ReplaceClient(s, t, c, t.clients[c]);
  }

  lemma InvDisconnect(s: State, c: nat)
    requires Inv(s) && Enabled(s, Disconnect(c))
    ensures Inv(Next(s, Disconnect(c)))
  {
    var t := Next(s, Disconnect(c));
    ReplaceClient(s, t, c, t.clients[c]);
  }

  lemma PolledFrame(id: nat, client: Client, gen: Generation, cap: nat, closed: bool)
    requires ClientOk(id, client, gen) && client.phase.Serving? && client.end.Open?
    requires PollFrame(client.body, gen.shared.ring, cap, closed).1.Frame?
    ensures ClientOk(id, Polled(client, gen.shared.ring, cap, closed), gen)
  {
    hide DataOf;
    var ring := gen.shared.ring;
    var (body, poll) := PollFrame(client.body, ring, cap, closed);
    FrameIsNextOutstanding(client.body, ring, cap, closed);
    assert client.received + [poll.bytes] + Outstanding(body, ring)
        == client.received + ([poll.bytes] + Outstanding(body, ring));
    assert client.received + [poll.bytes] <= gen.shared.offered;
  }

  /** A body that reached its end has nothing outstanding. */
  lemma NothingOutstanding(body: Body, ring: seq<Message>, phase: Phase)
    requires body.index == |body.initial| && body.next <= |ring| && RingOk(ring, phase)
    requires body.next < |ring| ==> !ring[body.next].Data?
    ensures Outstanding(body, ring) == []
  {
    assert body.initial[body.index..] == [];
    if body.next < |ring| {
      var last := ring[body.next];
      assert ring[body.next..] == [last];
      assert DataOf([last]) == [] by { assert [last][1..] == []; }
    }
  }

  lemma PolledEnd(id: nat, client: Client, gen: Generation, cap: nat, closed: bool)
    requires ClientOk(id, client, gen) && client.phase.Serving? && client.end.Open?
    requires RingOk(gen.shared.ring, gen.phase)
    requires closed ==> gen.phase.Ended?
    requires PollFrame(client.body, gen.shared.ring, cap, closed).1.EndOfStream?
    ensures ClientOk(id, Polled(client, gen.shared.ring, cap, closed), gen)
  {
    NothingOutstanding(client.body, gen.shared.ring, gen.phase);
    hide Outstanding;
    assert client.received == gen.shared.offered;
  }

  /** Polling moves the next outstanding chunk to what was received; only the end of it all ends it. */
  lemma PolledOk(id: nat, client: Client, gen: Generation, cap: nat, closed: bool)
    requires ClientOk(id, client, gen) && client.phase.Serving?
    requires RingOk(gen.shared.ring, gen.phase)
    requires closed ==> gen.phase.Ended?
    ensures ClientOk(id, Polled(client, gen.shared.ring, cap, closed), gen)
  {
    hide DataOf, Concat;
    var poll := PollFrame(client.body, gen.shared.ring, cap, closed).1;
    if client.body.finished || poll.Pending? {
    } else if poll.Frame? {
      PolledFrame(id, client, gen, cap, closed);
    } else if poll.EndOfStream? {
      PolledEnd(id, client, gen, cap, closed);
    }
  }

  /** A poll of one body says nothing about who joined what. */
  lemma PolledKeeps(client: Client, ring: seq<Message>, cap: nat, closed: bool)
    ensures
      var after := Polled(client, ring, cap, closed);
      after.key == client.key && after.gen == client.gen && after.phase == client.phase
  {
  }

  lemma InvPollBody(s: State, c: nat)
    requires Inv(s) && Enabled(s, PollBody(c))
    ensures Inv(Next(s, PollBody(c)))
  {
    hide ClientOk, Polled, PollFrame;
    var t := Next(s, PollBody(c));
    var g := s.clients[c].gen;
    LookupListed(s, g);
    PolledOk(c, s.clients[c], s.gens[g], s.cap, s.ChannelClosed(g));
    PolledKeeps(s.clients[c], s.gens[g].shared.ring, s.cap, s.ChannelClosed(g));
    ReplaceClient(s, t, c, t.clients[c]);
  }

  // ---------------------------------------------------------------- every step, every run

  lemma InvNext(s: State, step: Step)
    requires Inv(s) && Enabled(s, step)
    ensures Inv(Next(s, step))
  {
    match step
    case Arrive(key) => InvArrive(s, key);
    case Subscribe(c) => InvSubscribe(s, c);
    case CopyAccumulated(c) => InvCopyAccumulated(s, c);
    case SubscribeMeta(c) => InvSubscribeMeta(s, c);
    case Insert(c) => InvInsert(s, c);
    case Listen(c) => InvListen(s, c);
    case Spawn(c) => InvSpawn(s, c);
    case ReadMeta(c) => InvReadMeta(s, c);
    case PollBody(c) => InvPollBody(s, c);
    case Disconnect(c) => InvDisconnect(s, c);
    case PublishMeta(g, meta, cacheable) => InvPublishMeta(s, g, meta, cacheable);
    case Push(g, chunk) => InvPush(s, g, chunk);
    case Send(g) => InvSend(s, g);
    case BodyEnds(g, timestamp, ttl) => InvBodyEnds(s, g, timestamp, ttl);
    case FetchFails(g, reason) => InvFetchFails(s, g, reason);
    case AnnounceComplete(g) => InvAnnounceComplete(s, g);
    case NoteError(g) => InvNoteError(s, g);
    case AnnounceError(g) => InvAnnounceError(s, g);
    case Panic(g) => InvPanic(s, g);
    case DropGuard(g) => InvDropGuard(s, g);
    case DropSender(g) => InvDropSender(s, g);
  }

  lemma {:induction false} InvExec(s: State, run: seq<Step>)
    requires Inv(s) && ValidRun(s, run)
    ensures Inv(Exec(s, run))
    decreases |run|
  {
    if run == [] {
    } else {
      InvNext(s, run[0]);
      InvExec(Next(s, run[0]), run[1..]);
    }
  }

  lemma InvReachable(cap: nat, maxBody: nat, run: seq<Step>)
    requires ValidRun(Init(cap, maxBody), run)
    ensures Inv(Exec(Init(cap, maxBody), run))
  {
    InvExec(Init(cap, maxBody), run);
  }
}
