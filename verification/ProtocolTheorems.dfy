/** What clients, tasks and the table can rely on, in every run and under every interleaving. */
module ProtocolTheorems {
  import opened Common
  import opened Streaming
  import opened Protocol
  import opened ProtocolInvariant

  ghost predicate Reachable(s: State) {
    exists run :: ValidRun(Init(s.cap, s.maxBody), run) && Exec(Init(s.cap, s.maxBody), run) == s
  }

  lemma ReachableInv(s: State)
    requires Reachable(s)
    ensures Inv(s)
  {
    var run :| ValidRun(Init(s.cap, s.maxBody), run) && Exec(Init(s.cap, s.maxBody), run) == s;
    InvReachable(s.cap, s.maxBody, run);
  }

  ghost predicate Joined(s: State, c: nat) {
    s.IsClient(c) && !s.clients[c].phase.Acquired?
  }

  function GenOf(s: State, c: nat): Generation
    requires s.IsClient(c) && s.IsGen(s.clients[c].gen)
  {
    s.gens[s.clients[c].gen]
  }

  // ---------------------------------------------------------------- delivery

  /**
   A client was always handed a prefix of the chunks of its generation. One that
   ended cleanly on a successful download was handed all of them; closure, rather
   than the Complete message, only ends a client that subscribed after Complete.
   */
  lemma DeliveryIsExact(s: State, c: nat)
    requires Reachable(s) && Joined(s, c)
    ensures s.IsGen(s.clients[c].gen)
    ensures
      var client, gen := s.clients[c], GenOf(s, c);
      && client.received <= gen.shared.accumulated
      && (client.end.Clean() ==> gen.phase.HasOutcome())
      && (client.end.Clean() && gen.phase.Result().Succeeded? ==>
            client.received == gen.shared.accumulated)
      && (client.end.ByClosed? && gen.phase.Result().Succeeded? ==> client.late)
      && (client.end.ByComplete? ==> gen.phase.Result().Succeeded?)
  {
    ReachableInv(s);
    assert ClientOk(c, s.clients[c], GenOf(s, c));
    assert GenOk(GenOf(s, c), s.maxBody);
  }

  /**
   While the write lock is held no chunk of any download is half added: what was
   accumulated is what was offered to the channel.
   */
  lemma WriteLockSeesWholeChunks(s: State, g: nat)
    requires Reachable(s) && s.writer.Some? && s.IsGen(g)
    ensures s.gens[g].shared.accumulated == s.gens[g].shared.offered
  {
    ReachableInv(s);
    assert g !in s.readers;
    assert GenOk(s.gens[g], s.maxBody);
  }

  /**
   At every moment, what a client got, what is left of its copy and what is waiting
   in the channel make up exactly what was offered, without overlap or gap. That is
   all that was accumulated, but for a chunk just being added.
   */
  lemma CopyAndChannelPartition(s: State, c: nat)
    requires Reachable(s) && Joined(s, c) && s.clients[c].end.Open?
    requires s.clients[c].phase.HoldsReceiver() && !s.clients[c].phase.Subscribed?
    ensures s.IsGen(s.clients[c].gen)
    ensures
      var client, gen := s.clients[c], GenOf(s, c);
      && client.body.index <= |client.body.initial| && client.body.next <= |gen.shared.ring|
      && client.received + Outstanding(client.body, gen.shared.ring) == gen.shared.offered
      && gen.shared.accumulated == gen.shared.offered + (if gen.phase.Offering? then [gen.phase.chunk] else [])
      && (s.writer.Some? ==> !gen.phase.Offering?)
  {
    ReachableInv(s);
    assert ClientOk(c, s.clients[c], GenOf(s, c));
    assert GenOk(GenOf(s, c), s.maxBody);
  }

  /** A client that fell more than the capacity behind gets an error and nothing after it. */
  lemma OverrunEndsInError(s: State, c: nat, run: seq<Step>)
    requires Reachable(s) && Joined(s, c) && Enabled(s, PollBody(c))
    requires s.clients[c].end.Open? && s.clients[c].body.index == |s.clients[c].body.initial|
    requires |GenOf(s, c).shared.ring| > s.clients[c].body.next + s.cap
    requires ValidRun(Next(s, PollBody(c)), run)
    ensures
      var t := Exec(Next(s, PollBody(c)), run);
      && t.IsClient(c) && t.clients[c].end.Broken?
      && t.clients[c].received == s.clients[c].received
  {
    ReachableInv(s);
    assert ClientOk(c, s.clients[c], GenOf(s, c));
    InvNext(s, PollBody(c));
    EndIsFinal(Next(s, PollBody(c)), c, run);
  }

  lemma EndOutlivesStep(s: State, c: nat, step: Step)
    requires Joined(s, c) && s.IsGen(s.clients[c].gen) && ClientOk(c, s.clients[c], GenOf(s, c))
    requires !s.clients[c].end.Open? && Enabled(s, step)
    ensures
      var t := Next(s, step);
      Joined(t, c) && t.clients[c].end == s.clients[c].end && t.clients[c].received == s.clients[c].received
  {
    hide DataOf, RingOk;
  }

  lemma {:induction false} EndIsFinal(s: State, c: nat, run: seq<Step>)
    requires Inv(s) && Joined(s, c) && !s.clients[c].end.Open? && ValidRun(s, run)
    ensures
      var t := Exec(s, run);
      Joined(t, c) && t.clients[c].end == s.clients[c].end && t.clients[c].received == s.clients[c].received
    decreases |run|
  {
    hide Next, Enabled, ClientOk, GenOk;
    if run == [] {
    } else {
      EndOutlivesStep(s, c, run[0]);
      InvNext(s, run[0]);
      EndIsFinal(Next(s, run[0]), c, run[1..]);
    }
  }

  // ---------------------------------------------------------------- failed downloads

  /**
   When the task failed, nobody who subscribed before the Error broadcast ends
   cleanly; and if the error reached the metadata channel, no later joiner is
   served at all.
   */
  lemma FailureIsNoticed(s: State, c: nat)
    requires Reachable(s) && Joined(s, c) && s.IsGen(s.clients[c].gen)
    requires GenOf(s, c).phase.HasOutcome() && GenOf(s, c).phase.Result().Failed?
    ensures !s.clients[c].late ==> !s.clients[c].end.Clean()
    ensures s.clients[c].late && GenOf(s, c).errorNoted ==>
              !Served(s.clients[c])
  {
    ReachableInv(s);
    assert ClientOk(c, s.clients[c], GenOf(s, c));
    assert GenOk(GenOf(s, c), s.maxBody);
  }

  // ---------------------------------------------------------------- how a generation moves on

  /** What is settled about a generation stays settled. */
  ghost predicate Evolves(gen: Generation, later: Generation) {
    && later.key == gen.key
    && gen.shared.accumulated <= later.shared.accumulated
    && (gen.phase.HasOutcome() ==>
          && later.phase.HasOutcome() && later.phase.Result() == gen.phase.Result()
          && later.shared.accumulated == gen.shared.accumulated
          && later.stored == gen.stored)
    && (gen.phase.HasOutcome() && !gen.phase.Returned? ==>
          !later.phase.Returned? && later.errorNoted == gen.errorNoted && later.shared.meta == gen.shared.meta)
    && (gen.phase.Ended? ==> later == gen)
    && (!gen.phase.Unspawned? && !gen.phase.Fetching? ==>
          !later.phase.Unspawned? && !later.phase.Fetching? && later.headersOut == gen.headersOut)
  }

  /** The steps of a task. */
  predicate OfTask(step: Step) {
    || step.PublishMeta? || step.Push? || step.Send? || step.BodyEnds? || step.FetchFails?
    || step.AnnounceComplete? || step.NoteError? || step.AnnounceError? || step.Panic?
    || step.DropGuard? || step.DropSender?
  }

  lemma ClientStepEvolves(s: State, step: Step, g: nat)
    requires Enabled(s, step) && s.IsGen(g) && !OfTask(step)
    requires forall c: nat :: c < |s.clients| && s.clients[c].phase.Listening? && s.IsGen(s.clients[c].gen) ==>
               s.gens[s.clients[c].gen].phase.Unspawned?
    ensures Next(s, step).IsGen(g) && Evolves(s.gens[g], Next(s, step).gens[g])
  {
  }

  lemma ReturningEvolves(s: State, step: Step, g: nat)
    requires Enabled(s, step) && s.IsGen(g)
    requires step.BodyEnds? || step.FetchFails? || step.Panic?
    ensures Next(s, step).IsGen(g) && Evolves(s.gens[g], Next(s, step).gens[g])
  {
    hide Concat;
  }

  lemma LettingGoEvolves(s: State, step: Step, g: nat)
    requires Enabled(s, step) && s.IsGen(g)
    requires step.DropGuard? || step.DropSender?
    ensures Next(s, step).IsGen(g) && Evolves(s.gens[g], Next(s, step).gens[g])
  {
  }

  lemma AnnouncingEvolves(s: State, step: Step, g: nat)
    requires Enabled(s, step) && s.IsGen(g)
    requires step.AnnounceComplete? || step.AnnounceError?
    ensures Next(s, step).IsGen(g) && Evolves(s.gens[g], Next(s, step).gens[g])
  {
  }

  lemma AddingEvolves(s: State, step: Step, g: nat)
    requires Enabled(s, step) && s.IsGen(g)
    requires (step.Push? || step.Send?) && s.InTable(step.g)
    ensures Next(s, step).IsGen(g) && Evolves(s.gens[g], Next(s, step).gens[g])
  {
  }

  lemma MetaEvolves(s: State, step: Step, g: nat)
    requires Enabled(s, step) && s.IsGen(g)
    requires (step.PublishMeta? || step.NoteError?) && s.InTable(step.g)
    ensures Next(s, step).IsGen(g) && Evolves(s.gens[g], Next(s, step).gens[g])
  {
  }

  lemma StepEvolves(s: State, step: Step, g: nat)
    requires Inv(s) && Enabled(s, step) && s.IsGen(g)
    ensures Next(s, step).IsGen(g) && Evolves(s.gens[g], Next(s, step).gens[g])
  {
    if OfTask(step) {
      LookupListed(s, step.g);
      if step.Push? || step.Send? {
        AddingEvolves(s, step, g);
      } else if step.PublishMeta? || step.NoteError? {
        MetaEvolves(s, step, g);
      } else if step.BodyEnds? || step.FetchFails? || step.Panic? {
        ReturningEvolves(s, step, g);
      } else if step.AnnounceComplete? || step.AnnounceError? {
        AnnouncingEvolves(s, step, g);
      } else {
        LettingGoEvolves(s, step, g);
      }
    } else {
      forall c: nat | c < |s.clients| && s.clients[c].phase.Listening? && s.IsGen(s.clients[c].gen)
        ensures s.gens[s.clients[c].gen].phase.Unspawned?
      {
        assert ClientOk(c, s.clients[c], GenOf(s, c));
      }
      ClientStepEvolves(s, step, g);
    }
  }

  lemma {:induction false} RunEvolves(s: State, run: seq<Step>, g: nat)
    requires Inv(s) && ValidRun(s, run) && s.IsGen(g)
    ensures Exec(s, run).IsGen(g) && Evolves(s.gens[g], Exec(s, run).gens[g])
    decreases |run|
  {
    if run == [] {
    } else {
      StepEvolves(s, run[0], g);
      InvNext(s, run[0]);
      RunEvolves(Next(s, run[0]), run[1..], g);
    }
  }

  // ---------------------------------------------------------------- exactly when an error is missed

  ghost predicate SomebodyEndsCleanly(s: State, g: nat) {
    exists run, c :: EndsCleanlyAfter(s, g, run, c)
  }

  ghost predicate EndsCleanlyAfter(s: State, g: nat, run: seq<Step>, c: nat) {
    && ValidRun(s, run) && Joined(Exec(s, run), c)
    && Exec(s, run).clients[c].gen == g && Exec(s, run).clients[c].end.Clean()
  }

  lemma Snoc(s: State, run: seq<Step>, step: Step)
    requires ValidRun(s, run) && Enabled(Exec(s, run), step)
    ensures ValidRun(s, run + [step]) && Exec(s, run + [step]) == Next(Exec(s, run), step)
  {
    var t := Exec(s, run);
    assert [step][1..] == [];
    assert ValidRun(Next(t, step), []);
    RunAppend(s, run, [step]);
  }

  lemma SendElsewhere(s: State, r: nat, g: nat)
    requires Inv(s) && s.IsGen(g) && g != r && r in s.readers
    ensures Enabled(s, Send(r))
    ensures
      var t := Next(s, Send(r));
      && Inv(t) && t.readers == s.readers - {r} && t.writer == s.writer && t.cap == s.cap
      && t.downloads == s.downloads && t.clients == s.clients && t.IsGen(g) && t.gens[g] == s.gens[g]
  {
    LookupListed(s, r);
    InvNext(s, Send(r));
  }

  /** Chunks being added elsewhere can always be finished, whatever else is going on. */
  lemma {:induction false} FlushReaders(s: State, g: nat) returns (run: seq<Step>)
    requires Inv(s) && s.IsGen(g) && !s.gens[g].phase.Offering? && s.writer.None?
    ensures ValidRun(s, run)
    ensures
      var t := Exec(s, run);
      && Inv(t) && t.LockFree() && t.cap == s.cap && t.downloads == s.downloads
      && t.clients == s.clients && t.IsGen(g) && t.gens[g] == s.gens[g]
    decreases |s.readers|
  {
    hide ClientOk, GenOk;
    if s.readers == {} {
      run := [];
    } else {
      var r :| r in s.readers;
      SendElsewhere(s, r, g);
      var rest := FlushReaders(Next(s, Send(r)), g);
      run := [Send(r)] + rest;
      assert run[1..] == rest;
    }
  }

  /** Left alone on a closed channel, a client that missed every message ends cleanly. */
  lemma {:induction false} DrainCopy(s: State, c: nat) returns (run: seq<Step>)
    requires Inv(s) && Joined(s, c) && s.clients[c].phase.Serving? && s.clients[c].end.Open?
    requires s.ChannelClosed(s.clients[c].gen)
    requires s.clients[c].body.next == |GenOf(s, c).shared.ring|
    ensures ValidRun(s, run)
    ensures Joined(Exec(s, run), c) && Exec(s, run).clients[c].gen == s.clients[c].gen
    ensures Exec(s, run).clients[c].end.ByClosed?
    decreases |s.clients[c].body.initial| - s.clients[c].body.index
  {
    assert ClientOk(c, s.clients[c], GenOf(s, c));
    var step := PollBody(c);
    InvNext(s, step);
    var t := Next(s, step);
    if s.clients[c].body.index < |s.clients[c].body.initial| {
      var rest := DrainCopy(t, c);
      run := [step] + rest;
      assert run[1..] == rest;
    } else {
      run := [step];
      assert run[1..] == [];
      assert ValidRun(t, []);
    }
  }

  /** Joining leaves the client behind all messages, with a copy of all chunks. */
  lemma JoiningIsARun(s: State, g: nat) returns (run: seq<Step>)
    requires s.LockFree() && s.InTable(g)
    ensures ValidRun(s, run)
    ensures
      var gen := s.gens[g];
      var client := Client(gen.key, Waiting, g, Body(gen.shared.accumulated, 0, |gen.shared.ring|, false), [], Open,
                           gen.phase.Past());
      Exec(s, run) == s.(clients := s.clients + [client])
  {
    var c, key := |s.clients|, s.gens[g].key;
    Snoc(s, [], Arrive(key));
    run := [] + [Arrive(key)];
    Snoc(s, run, Subscribe(c));
    run := run + [Subscribe(c)];
    Snoc(s, run, CopyAccumulated(c));
    run := run + [CopyAccumulated(c)];
    Snoc(s, run, SubscribeMeta(c));
    run := run + [SubscribeMeta(c)];
  }

  /** Joining a download that is still listed, up to its response headers. */
  lemma JoinAndRead(s: State, g: nat) returns (run: seq<Step>, c: nat)
    requires Inv(s) && s.LockFree() && s.InTable(g) && s.gens[g].phase.Announced?
    requires s.gens[g].shared.meta.Some? && s.gens[g].shared.meta.value.Published?
    ensures ValidRun(s, run)
    ensures
      var t := Exec(s, run);
      && Inv(t) && t.LockFree() && t.gens == s.gens && t.cap == s.cap && t.downloads == s.downloads
      && Joined(t, c) && t.clients[c].phase.Serving? && t.clients[c].gen == g
      && t.clients[c].end.Open? && t.clients[c].body.next == |s.gens[g].shared.ring|
  {
    hide Inv;
    c := |s.clients|;
    run := JoiningIsARun(s, g);
    Snoc(s, run, ReadMeta(c));
    run := run + [ReadMeta(c)];
    InvExec(s, run);
  }

  /** Once its outcome is announced a task can always let go, and then everybody drains. */
  lemma LetGoAndDrain(s: State, g: nat, c: nat) returns (run: seq<Step>)
    requires Inv(s) && s.LockFree() && s.IsGen(g) && s.gens[g].phase.Announced?
    requires Joined(s, c) && s.clients[c].phase.Serving? && s.clients[c].gen == g
    requires s.clients[c].end.Open? && s.clients[c].body.next == |s.gens[g].shared.ring|
    ensures ValidRun(s, run) && EndsCleanlyAfter(s, g, run, c)
  {
    hide GenOk;
    InvNext(s, DropGuard(g));
    var s1 := Next(s, DropGuard(g));
    InvNext(s1, DropSender(g));
    var s2 := Next(s1, DropSender(g));
    LookupListed(s2, g);
    var drain := DrainCopy(s2, c);
    Snoc(s, [], DropGuard(g));
    Snoc(s, [DropGuard(g)], DropSender(g));
    RunAppend(s, [DropGuard(g)] + [DropSender(g)], drain);
    run := [DropGuard(g)] + [DropSender(g)] + drain;
  }

  /** A run after which somebody took a failed download for a complete one. */
  lemma LateJoinerIsDeceived(s: State, g: nat) returns (run: seq<Step>, c: nat)
    requires Inv(s) && s.IsGen(g) && s.gens[g].phase.ErrorNoted? && s.writer.None?
    requires s.gens[g].shared.meta.Some? && s.gens[g].shared.meta.value.Published?
    ensures ValidRun(s, run)
    ensures Joined(Exec(s, run), c)
    ensures Exec(s, run).clients[c].gen == g && Exec(s, run).clients[c].end.Clean()
  {
    hide ClientOk, GenOk;
    var s1 := Next(s, AnnounceError(g));
    Snoc(s, [], AnnounceError(g));
    InvNext(s, AnnounceError(g));
    var flush := FlushReaders(s1, g);
    var s2 := Exec(s1, flush);
    LookupListed(s2, g);
    var join;
    join, c := JoinAndRead(s2, g);
    var rest := LetGoAndDrain(Exec(s2, join), g, c);
    RunAppend(s2, join, rest);
    RunAppend(s1, flush, join + rest);
    RunAppend(s, [AnnounceError(g)], flush + (join + rest));
    run := [AnnounceError(g)] + (flush + (join + rest));
  }

  /**
   When the task of a failed download passes its error on, some client can still
   take the download for complete exactly if headers were published and no
   metadata receiver is left to take the error.
   */
  lemma ErrorMissedExactly(s: State, g: nat)
    requires Reachable(s) && Enabled(s, NoteError(g))
    ensures SomebodyEndsCleanly(Next(s, NoteError(g)), g)
       <==> s.gens[g].shared.meta.Some? && !s.MetaReceiverLive(g)
  {
    ReachableInv(s);
    var t := Next(s, NoteError(g));
    InvNext(s, NoteError(g));
    AfterNoteError(s, g);
    if s.gens[g].shared.meta.Some? && !s.MetaReceiverLive(g) {
      var run, c := LateJoinerIsDeceived(t, g);
      assert EndsCleanlyAfter(t, g, run, c);
    } else if SomebodyEndsCleanly(t, g) {
      var run, c :| EndsCleanlyAfter(t, g, run, c);
      CleanEndNeedsLostError(t, g, run, c);
    }
  }

  lemma AfterNoteError(s: State, g: nat)
    requires Inv(s) && Enabled(s, NoteError(g))
    ensures
      var gen := Next(s, NoteError(g)).gens[g];
      && gen.phase.ErrorNoted? && gen.errorNoted == s.MetaReceiverLive(g)
      && gen.headersOut == s.gens[g].shared.meta.Some?
      && (!gen.errorNoted ==> gen.shared == s.gens[g].shared)
  {
    LookupListed(s, g);
    assert GenOk(s.gens[g], s.maxBody);
  }

  lemma CleanEndNeedsLostError(s: State, g: nat, run: seq<Step>, c: nat)
    requires Inv(s) && s.IsGen(g) && s.gens[g].phase.ErrorNoted?
    requires EndsCleanlyAfter(s, g, run, c)
    ensures s.gens[g].headersOut && !s.gens[g].errorNoted
  {
    var t := Exec(s, run);
    InvExec(s, run);
    RunEvolves(s, run, g);
    assert ClientOk(c, t.clients[c], t.gens[g]);
  }

  // ---------------------------------------------------------------- exactly when headers are lost

  ghost predicate SomebodyServed(s: State, g: nat) {
    exists run, c :: ServedAfter(s, g, run, c)
  }

  ghost predicate ServedAfter(s: State, g: nat, run: seq<Step>, c: nat) {
    && ValidRun(s, run) && Joined(Exec(s, run), c)
    && Exec(s, run).clients[c].gen == g && Exec(s, run).clients[c].phase.Serving?
  }

  /**
   When the response headers are published, the download can still serve somebody
   exactly if a metadata receiver is live at that moment. Otherwise every later
   joiner is refused, however the download goes on.
   */
  lemma HeadersLostExactly(s: State, g: nat, meta: ResponseMeta, cacheable: bool)
    requires Reachable(s) && Enabled(s, PublishMeta(g, meta, cacheable))
    ensures SomebodyServed(Next(s, PublishMeta(g, meta, cacheable)), g) <==> s.MetaReceiverLive(g)
  {
    hide ClientOk, GenOk;
    ReachableInv(s);
    var t := Next(s, PublishMeta(g, meta, cacheable));
    InvNext(s, PublishMeta(g, meta, cacheable));
    LookupListed(s, g);
    if s.MetaReceiverLive(g) {
      var c := WaiterAtPublication(s, g, meta, cacheable);
      Snoc(t, [], ReadMeta(c));
      assert [] + [ReadMeta(c)] == [ReadMeta(c)];
      assert ServedAfter(t, g, [ReadMeta(c)], c);
    }
    if SomebodyServed(t, g) {
      var run, c :| ServedAfter(t, g, run, c);
      ServiceNeedsHeaders(t, g, run, c);
    }
  }

  lemma WaiterAtPublication(s: State, g: nat, meta: ResponseMeta, cacheable: bool) returns (c: nat)
    requires Inv(s) && Enabled(s, PublishMeta(g, meta, cacheable)) && s.MetaReceiverLive(g)
    ensures
      var t := Next(s, PublishMeta(g, meta, cacheable));
      Enabled(t, ReadMeta(c)) && t.clients[c].gen == g && Next(t, ReadMeta(c)).clients[c].phase.Serving?
  {
    c :| 0 <= c < |s.clients| && s.clients[c].phase.HoldsMetaReceiver() && s.clients[c].gen == g;
    assert ClientOk(c, s.clients[c], s.gens[g]);
    LookupListed(s, g);
  }

  lemma ServiceNeedsHeaders(s: State, g: nat, run: seq<Step>, c: nat)
    requires Inv(s) && s.IsGen(g) && s.gens[g].phase.Reading?
    requires ServedAfter(s, g, run, c)
    ensures s.gens[g].headersOut
  {
    var t := Exec(s, run);
    InvExec(s, run);
    RunEvolves(s, run, g);
    assert ClientOk(c, t.clients[c], t.gens[g]);
  }

  // ---------------------------------------------------------------- single flight

  /** The table and the unfinished downloads are in bijection, one per key. */
  lemma SingleFlight(s: State)
    requires Reachable(s)
    ensures forall key :: key in s.downloads ==>
              s.IsGen(s.downloads[key]) && s.gens[s.downloads[key]].key == key
              && s.gens[s.downloads[key]].phase.Listed()
    ensures forall g: nat :: g < |s.gens| && s.gens[g].phase.Listed() ==>
              s.gens[g].key in s.downloads && s.downloads[s.gens[g].key] == g
  {
    ReachableInv(s);
  }

  /** The steps of a task that find its download by key, not by handle. */
  predicate ByKey(step: Step) {
    step.PublishMeta? || step.Push? || step.Send? || step.NoteError?
  }

  /** Although a task names its download by key only, it never touches another generation. */
  lemma TaskTouchesOwnGeneration(s: State, step: Step)
    requires Reachable(s) && Enabled(s, step) && ByKey(step)
    ensures
      var t := Next(s, step);
      && t.downloads == s.downloads && |t.gens| == |s.gens|
      && (forall h: nat :: h < |s.gens| && h != step.g ==> t.gens[h] == s.gens[h])
      && (var gen, shared := s.gens[step.g], t.gens[step.g].shared;
          && (step.Push? ==> shared == gen.shared.Push(step.chunk))
          && (step.Send? ==> shared == gen.shared.Send(Data(gen.phase.chunk), s.ReceiverLive(step.g)))
          && (step.PublishMeta? ==> shared == gen.shared.SetMeta(Published(step.meta), s.MetaReceiverLive(step.g)))
          && (step.NoteError? ==>
                shared == gen.shared.SetMeta(Refusal(gen.phase.outcome.reason), s.MetaReceiverLive(step.g))))
  {
    hide ClientOk, GenOk;
    ReachableInv(s);
    LookupListed(s, step.g);
  }

  /** A guard drop removes the task's own entry and no other, however often the key was restarted. */
  lemma GuardRemovesOwnEntry(s: State, g: nat)
    requires Reachable(s) && Enabled(s, DropGuard(g))
    ensures
      var t := Next(s, DropGuard(g));
      && s.gens[g].key in s.downloads && s.downloads[s.gens[g].key] == g
      && t.downloads == s.downloads - {s.gens[g].key}
      && |t.gens| == |s.gens|
      && !t.InTable(g)
      && (forall h: nat :: h < |s.gens| && h != g ==> t.gens[h] == s.gens[h])
      && forall h: nat :: h < |s.gens| && h != g ==> (s.InTable(h) <==> t.InTable(h))
  {
    hide ClientOk, GenOk;
    ReachableInv(s);
    LookupListed(s, g);
  }

  // ---------------------------------------------------------------- nobody waits forever

  /** Once the download is over, whoever still waits for headers gets an answer at its next step. */
  lemma WaiterIsResolved(s: State, c: nat)
    requires Reachable(s) && Joined(s, c) && s.clients[c].phase.Waiting?
    requires s.IsGen(s.clients[c].gen) && GenOf(s, c).phase.Ended?
    ensures Enabled(s, ReadMeta(c))
    ensures Next(s, ReadMeta(c)).clients[c].phase.Serving? || Next(s, ReadMeta(c)).clients[c].phase.Refused?
  {
    ReachableInv(s);
    LookupListed(s, s.clients[c].gen);
  }

  function Polls(run: seq<Step>, c: nat): nat {
    if run == [] then 0 else (if run[0] == PollBody(c) then 1 else 0) + Polls(run[1..], c)
  }

  /** Nobody but the client itself moves its body. */
  lemma OthersLeaveClient(s: State, step: Step, c: nat)
    requires Inv(s) && Enabled(s, step) && Joined(s, c) && s.clients[c].phase.Serving?
    requires step != PollBody(c) && step != Disconnect(c)
    ensures Next(s, step).IsClient(c) && Next(s, step).clients[c] == s.clients[c]
  {
  }

  /**
   Once the download is over, as many polls as there is left to read finish the
   body, whatever happens in between; from then on it only yields end of stream.
   */
  lemma {:induction false} BodyRunsOut(s: State, run: seq<Step>, c: nat)
    requires Inv(s) && Joined(s, c) && s.clients[c].phase.Serving? && GenOf(s, c).phase.Ended?
    requires ValidRun(s, run) && Disconnect(c) !in run
    requires Polls(run, c) >= Remaining(s.clients[c].body, GenOf(s, c).shared.ring)
    ensures
      var t := Exec(s, run);
      && Joined(t, c) && t.clients[c].phase.Serving? && !t.clients[c].end.Open?
      && forall ring, cap, closed :: PollFrame(t.clients[c].body, ring, cap, closed)
                                     == (t.clients[c].body, EndOfStream)
    decreases |run|
  {
    assert ClientOk(c, s.clients[c], GenOf(s, c));
    if run == [] {
    } else {
      var t := Next(s, run[0]);
      InvNext(s, run[0]);
      StepEvolves(s, run[0], s.clients[c].gen);
      LookupListed(s, s.clients[c].gen);
      if run[0] == PollBody(c) {
        if !s.clients[c].body.finished {
          ClosedPollProgresses(s.clients[c].body, GenOf(s, c).shared.ring, s.cap);
        }
      } else {
        OthersLeaveClient(s, run[0], c);
      }
      BodyRunsOut(t, run[1..], c);
    }
  }

  lemma EveryBodyEnds(s: State, run: seq<Step>, c: nat)
    requires Reachable(s) && Joined(s, c) && s.clients[c].phase.Serving?
    requires s.IsGen(s.clients[c].gen) && GenOf(s, c).phase.Ended?
    requires ValidRun(s, run) && Disconnect(c) !in run
    requires Polls(run, c) >= Remaining(s.clients[c].body, GenOf(s, c).shared.ring)
    ensures
      var t := Exec(s, run);
      && Joined(t, c) && !t.clients[c].end.Open?
      && forall ring, cap, closed :: PollFrame(t.clients[c].body, ring, cap, closed)
                                     == (t.clients[c].body, EndOfStream)
  {
    ReachableInv(s);
    BodyRunsOut(s, run, c);
  }

  // ---------------------------------------------------------------- end to end

  lemma {:induction false} ConcatOfPrefix(some: seq<Bytes>, all: seq<Bytes>)
    requires some <= all
    ensures Concat(some) <= Concat(all)
  {
    if some == all {
    } else {
      ConcatOfPrefix(some, all[..|all| - 1]);
    }
  }

  /**
   What a task stored is the body within its limit, stored by a task that did not
   fail: byte for byte what every client that ended cleanly received, and an
   extension of what any other client received, with the status and headers they
   were told.
   */
  lemma StoredIsDelivered(s: State, g: nat, c: nat)
    requires Reachable(s) && s.IsGen(g) && s.gens[g].stored.Some?
    requires Joined(s, c) && s.clients[c].gen == g
    ensures s.gens[g].phase.HasOutcome() && s.gens[g].phase.Result().Succeeded?
    ensures s.gens[g].stored.value.data == Concat(s.gens[g].shared.accumulated)
    ensures |s.gens[g].stored.value.data| <= s.maxBody
    ensures Concat(s.clients[c].received) <= s.gens[g].stored.value.data
    ensures s.clients[c].end.Clean() ==> Concat(s.clients[c].received) == s.gens[g].stored.value.data
    ensures Served(s.clients[c]) ==>
              s.gens[g].shared.meta
              == Some(Published(ResponseMeta(s.gens[g].stored.value.status, s.gens[g].stored.value.headers)))
  {
    ReachableInv(s);
    assert GenOk(s.gens[g], s.maxBody);
    assert ClientOk(c, s.clients[c], s.gens[g]);
    DeliveryIsExact(s, c);
    ConcatOfPrefix(s.clients[c].received, s.gens[g].shared.accumulated);
  }
}
