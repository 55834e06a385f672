/** How a response ends, for every client that keeps up. */
module Endings {
  import opened Common
  import opened Streaming
  import opened Protocol
  import opened ProtocolInvariant
  import opened ProtocolTheorems

  /** The ring still holds everything the client has not read. */
  predicate KeepsUp(s: State, c: nat)
    requires s.IsClient(c) && s.IsGen(s.clients[c].gen)
  {
    |GenOf(s, c).shared.ring| <= s.clients[c].body.next + s.cap
  }

  /** A client in the middle of its response. */
  predicate BeingServed(s: State, c: nat) {
    s.IsClient(c) && s.IsGen(s.clients[c].gen) && s.clients[c].phase.Serving? && s.clients[c].end.Open?
  }

  /** With something outstanding, the next poll hands out the first of it, and goes on. */
  lemma PollHandsOutNext(s: State, c: nat)
    requires Reachable(s) && BeingServed(s, c)
    requires KeepsUp(s, c) || s.clients[c].body.index < |s.clients[c].body.initial|
    ensures s.clients[c].body.index <= |s.clients[c].body.initial|
    ensures s.clients[c].body.next <= |GenOf(s, c).shared.ring|
    ensures
      var rest := Outstanding(s.clients[c].body, GenOf(s, c).shared.ring);
      var after := Next(s, PollBody(c)).clients[c];
      rest != [] ==> after.received == s.clients[c].received + [rest[0]] && after.end.Open?
  {
    hide Inv, DataOf;
    FactsOf(s, c);
    var client, ring := s.clients[c], GenOf(s, c).shared.ring;
    if client.body.index == |client.body.initial| && (client.body.next == |ring| || !ring[client.body.next].Data?) {
      NothingOutstanding(client.body, ring, GenOf(s, c).phase);
    } else {
      FrameIsNextOutstanding(client.body, ring, s.cap, s.ChannelClosed(client.gen));
    }
  }

  lemma FactsOf(s: State, c: nat)
    requires Reachable(s) && BeingServed(s, c)
    ensures Inv(s) && ClientOk(c, s.clients[c], GenOf(s, c)) && GenOk(GenOf(s, c), s.maxBody)
  {
    ReachableInv(s);
    assert ClientOk(c, s.clients[c], GenOf(s, c));
    assert GenOk(GenOf(s, c), s.maxBody);
  }

  /**
   With nothing outstanding, the next poll waits while the download goes on, and
   tells its outcome once that was announced; a client that came after the
   announcement ends when the channel is closed.
   */
  lemma PollTellsOutcome(s: State, c: nat)
    requires Reachable(s) && BeingServed(s, c) && KeepsUp(s, c)
    requires s.clients[c].body.index == |s.clients[c].body.initial|
    requires s.clients[c].received == GenOf(s, c).shared.offered
    ensures
      var client, phase, after := s.clients[c], GenOf(s, c).phase, Next(s, PollBody(c)).clients[c];
      && (!phase.Past() ==> after == client)
      && (phase.Past() && !client.late && phase.Result().Succeeded? ==> after.end.ByComplete?)
      && (phase.Past() && !client.late && phase.Result().Failed? ==>
            && after.end.Broken?
            && PollFrame(client.body, GenOf(s, c).shared.ring, s.cap, s.ChannelClosed(client.gen)).1
               == Failure(phase.Result().reason))
      && (client.late ==> if s.ChannelClosed(client.gen) then after.end.ByClosed? else after == client)
  {
    hide Inv;
    FactsOf(s, c);
    var client, gen := s.clients[c], GenOf(s, c);
    assert Outstanding(client.body, gen.shared.ring) == [] by {
      assert client.received + Outstanding(client.body, gen.shared.ring) == client.received;
    }
    NoDataLeft(client.body, gen.shared.ring);
  }

  lemma NoDataLeft(body: Body, ring: seq<Message>)
    requires body.index <= |body.initial| && body.next <= |ring| && Outstanding(body, ring) == []
    ensures body.next < |ring| ==> !ring[body.next].Data?
  {
  }

  /** A response breaks off only for a client that was overrun, or because the download failed. */
  lemma BreaksOnlyForCause(s: State, c: nat)
    requires Reachable(s) && BeingServed(s, c)
    requires Next(s, PollBody(c)).clients[c].end.Broken?
    ensures !KeepsUp(s, c) || (GenOf(s, c).phase.HasOutcome() && GenOf(s, c).phase.Result().Failed?)
  {
    hide Inv;
    FactsOf(s, c);
  }

  /** After a successful download, nobody who keeps up falls out of it. */
  lemma PollAfterSuccess(s: State, c: nat)
    requires Inv(s) && BeingServed(s, c) && KeepsUp(s, c)
    requires GenOf(s, c).phase == Ended(Succeeded)
    ensures
      var t := Next(s, PollBody(c));
      && t.IsClient(c) && t.clients[c].gen == s.clients[c].gen && t.gens == s.gens && t.cap == s.cap
      && (t.clients[c].end.Clean() || (t.clients[c].end.Open? && KeepsUp(t, c)))
  {
    assert ClientOk(c, s.clients[c], GenOf(s, c));
    assert GenOk(GenOf(s, c), s.maxBody);
  }

  lemma StepKeepsCap(s: State, step: Step)
    requires Enabled(s, step)
    ensures Next(s, step).cap == s.cap
  {
  }

  lemma {:induction false} StaysClean(s: State, run: seq<Step>, c: nat)
    requires Inv(s) && Joined(s, c) && s.clients[c].phase.Serving? && GenOf(s, c).phase == Ended(Succeeded)
    requires s.clients[c].end.Clean() || (s.clients[c].end.Open? && KeepsUp(s, c))
    requires ValidRun(s, run) && Disconnect(c) !in run
    ensures Exec(s, run).IsClient(c) && !Exec(s, run).clients[c].end.Broken?
    decreases |run|
  {
    if run != [] {
      var t := Next(s, run[0]);
      hide Next, Enabled, ClientOk, GenOk;
      InvNext(s, run[0]);
      StepKeepsCap(s, run[0]);
      StepEvolves(s, run[0], s.clients[c].gen);
      if s.clients[c].end.Clean() {
        EndIsFinalStep(s, run[0], c);
      } else if run[0] == PollBody(c) {
        PollAfterSuccess(s, c);
        PollKeepsServing(s, c);
      } else {
        OthersLeaveClient(s, run[0], c);
      }
      StaysClean(t, run[1..], c);
    }
  }

  lemma PollKeepsServing(s: State, c: nat)
    requires Enabled(s, PollBody(c))
    ensures Next(s, PollBody(c)).IsClient(c) && Next(s, PollBody(c)).clients[c].phase.Serving?
  {
    PolledKeeps(s.clients[c], GenOf(s, c).shared.ring, s.cap, s.ChannelClosed(s.clients[c].gen));
  }

  lemma EndIsFinalStep(s: State, step: Step, c: nat)
    requires Inv(s) && Joined(s, c) && s.clients[c].phase.Serving? && !s.clients[c].end.Open?
    requires Enabled(s, step) && step != Disconnect(c)
    ensures Next(s, step).IsClient(c) && Next(s, step).clients[c] == s.clients[c]
  {
    if step == PollBody(c) {
      assert ClientOk(c, s.clients[c], GenOf(s, c));
    } else {
      OthersLeaveClient(s, step, c);
    }
  }

  /**
   Once the download is over, a client that keeps up and goes on polling ends as it
   should, whatever else happens: cleanly and with every chunk if the download
   succeeded, with an error if it failed and the client was there before the failure
   was announced.
   */
  lemma EndTellsOutcome(s: State, run: seq<Step>, c: nat)
    requires Reachable(s) && Joined(s, c) && BeingServed(s, c) && KeepsUp(s, c)
    requires GenOf(s, c).phase.Ended?
    requires ValidRun(s, run) && Disconnect(c) !in run
    requires Polls(run, c) >= Remaining(s.clients[c].body, GenOf(s, c).shared.ring)
    ensures
      var t := Exec(s, run);
      && t.IsClient(c) && t.IsGen(t.clients[c].gen)
      && (GenOf(s, c).phase.outcome.Succeeded? ==>
            t.clients[c].end.Clean() && t.clients[c].received == GenOf(s, c).shared.accumulated)
      && (GenOf(s, c).phase.outcome.Failed? && !s.clients[c].late ==> t.clients[c].end.Broken?)
  {
    hide Next, Enabled, Inv, PollFrame;
    ReachableInv(s);
    BodyRunsOut(s, run, c);
    if GenOf(s, c).phase.outcome.Succeeded? { StaysClean(s, run, c); }
    SameClientLater(s, run, c);
  }

  /** Over a run an ended download and its client stay what they are. */
  lemma {:induction false} ClientStays(s: State, run: seq<Step>, c: nat)
    requires Inv(s) && Joined(s, c) && ValidRun(s, run)
    ensures Joined(Exec(s, run), c) && Exec(s, run).clients[c].gen == s.clients[c].gen
    ensures Exec(s, run).clients[c].late == s.clients[c].late
    decreases |run|
  {
    if run != [] {
      InvNext(s, run[0]);
      StepKeepsMembership(s, run[0], c);
      ClientStays(Next(s, run[0]), run[1..], c);
    }
  }

  lemma StepKeepsMembership(s: State, step: Step, c: nat)
    requires Joined(s, c) && Enabled(s, step)
    ensures
      var t := Next(s, step);
      && Joined(t, c) && t.clients[c].gen == s.clients[c].gen && t.clients[c].late == s.clients[c].late
  {
  }

  lemma SameClientLater(s: State, run: seq<Step>, c: nat)
    requires Inv(s) && Joined(s, c) && s.clients[c].phase.Serving? && GenOf(s, c).phase.Ended? && ValidRun(s, run)
    ensures
      var t := Exec(s, run);
      && Inv(t) && Joined(t, c) && t.IsGen(t.clients[c].gen) && GenOf(t, c) == GenOf(s, c)
      && (t.clients[c].end.Clean() && GenOf(s, c).phase.outcome.Succeeded? ==>
            t.clients[c].received == GenOf(s, c).shared.accumulated)
      && (!s.clients[c].late && GenOf(s, c).phase.outcome.Failed? ==> !t.clients[c].end.Clean())
  {
    InvExec(s, run);
    ClientStays(s, run, c);
    RunEvolves(s, run, s.clients[c].gen);
    var t := Exec(s, run);
    assert ClientOk(c, t.clients[c], GenOf(t, c));
    assert GenOk(GenOf(t, c), t.maxBody);
  }
}
