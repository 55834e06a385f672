/**
 The in-flight download table as a transition system over any number of keys,
 download generations and clients.

 A step is what one party does without another being able to look in between:
 the two critical sections that matter, joining a download and adding a chunk,
 are split into their micro-steps, and the lock on the table is explicit.
 The fields `offered`, `late`, `headersOut` and `errorNoted` record history and
 steer no step.
 */
module Protocol {
  import opened Common
  import opened Streaming

  type Key = string

  datatype MetaResult = Published(meta: ResponseMeta) | Refusal(reason: string)

  /** What the task and the clients of one download share. */
  datatype Shared = Shared(
    accumulated: seq<Bytes>, offered: seq<Bytes>, ring: seq<Message>, meta: Option<MetaResult>)
  {
    function Push(chunk: Bytes): Shared {
      this.(accumulated := accumulated + [chunk])
    }

    /** Without a live receiver the channel drops the message. */
    function Send(m: Message, live: bool): Shared {
      this.(ring := if live then ring + [m] else ring,
            offered := if m.Data? then offered + [m.bytes] else offered)
    }

    /** Without a live receiver the watched value stays as it was. */
    function SetMeta(value: MetaResult, live: bool): Shared {
      if live then this.(meta := Some(value)) else this
    }
  }

  const FRESH := Shared([], [], [], None)

  /** The locals of the chunk loop. */
  datatype Fetch = Fetch(cacheable: bool, meta: ResponseMeta, total: nat, buffer: Bytes)
  {
    predicate Fits(chunk: Bytes, maxBody: nat) {
      total + |chunk| <= maxBody
    }

    function Take(chunk: Bytes): Fetch {
      this.(total := total + |chunk|, buffer := if cacheable then buffer + chunk else buffer)
    }

    function Entry(timestamp: nat, ttlSeconds: nat): CacheEntry {
      CacheEntry(buffer, meta.headers, meta.status, timestamp, ttlSeconds)
    }
  }

  datatype Outcome = Succeeded | Failed(reason: string) | Panicked

  datatype Phase =
    | Unspawned                    // in the table, task not yet spawned
    | Fetching                     // no response headers yet
    | Reading                      // between two chunks
    | Offering(chunk: Bytes)       // chunk pushed but not yet sent; holds the read lock
    | Returned(outcome: Outcome)   // the fetch returned, nothing announced
    | ErrorNoted(reason: string)   // error given to the metadata channel only
    | Announced(outcome: Outcome)  // guard still held
    | Released(outcome: Outcome)   // guard dropped, own sender still alive
    | Ended(outcome: Outcome)      // own sender dropped
  {
    /** The download must still be in the table. */
    predicate Listed() { !Released? && !Ended? }

    predicate Past() { Announced? || Released? || Ended? }

    predicate HasOutcome() { Returned? || ErrorNoted? || Past() }

    function Result(): Outcome
      requires HasOutcome()
    {
      if ErrorNoted? then Failed(reason) else outcome
    }
  }

  datatype Generation = Generation(
    key: Key, initiator: nat, shared: Shared, phase: Phase, fetch: Fetch,
    stored: Option<CacheEntry>, headersOut: bool, errorNoted: bool)

  datatype ClientPhase =
    | Acquired     // holds the write lock, table not yet looked up
    | Subscribed   // holds the write lock and a broadcast receiver
    | Copied       // ... and the accumulated chunks
    | Inserted     // started a download, not yet subscribed to it
    | Listening    // ... and subscribed, task not yet spawned
    | Waiting      // for the response headers
    | Serving      // polling its body
    | Refused      // answered with an error page
    | Gone         // disconnected
  {
    predicate HoldsLock() { Acquired? || Subscribed? || Copied? }

    predicate HoldsReceiver() { Subscribed? || Copied? || Listening? || Waiting? || Serving? }

    predicate HoldsMetaReceiver() { Inserted? || Listening? || Waiting? }

    predicate Starting() { Inserted? || Listening? }
  }

  datatype Ending = Open | ByComplete | ByClosed | Broken
  {
    predicate Clean() { ByComplete? || ByClosed? }
  }

  /** `late`: subscribed after the terminal message was broadcast. */
  datatype Client = Client(
    key: Key, phase: ClientPhase, gen: nat, body: Body, received: seq<Bytes>,
    end: Ending, late: bool)

  datatype State = State(
    cap: nat, maxBody: nat, downloads: map<Key, nat>, gens: seq<Generation>,
    clients: seq<Client>, readers: set<nat>, writer: Option<nat>)
  {
    predicate IsGen(g: nat) { g < |gens| }

    predicate IsClient(c: nat) { c < |clients| }

    predicate LockFree() { writer == None && readers == {} }

    function Lookup(key: Key): Option<nat> {
      if key in downloads && downloads[key] < |gens| then Some(downloads[key]) else None
    }

    predicate InTable(g: nat) {
      IsGen(g) && Lookup(gens[g].key) == Some(g)
    }

    predicate ReceiverLive(g: nat) {
      exists c :: 0 <= c < |clients| && clients[c].phase.HoldsReceiver() && clients[c].gen == g
    }

    predicate MetaReceiverLive(g: nat) {
      exists c :: 0 <= c < |clients| && clients[c].phase.HoldsMetaReceiver() && clients[c].gen == g
    }

    /** Neither the table nor the task holds a sender any more. */
    predicate ChannelClosed(g: nat)
      requires IsGen(g)
    {
      gens[g].phase.Ended? && !InTable(g)
    }

    function WithShared(g: nat, shared: Shared): State
      requires IsGen(g)
    {
      this.(gens := gens[g := gens[g].(shared := shared)])
    }

    function WithPhase(g: nat, phase: Phase): State
      requires IsGen(g)
    {
      this.(gens := gens[g := gens[g].(phase := phase)])
    }

    function WithClient(c: nat, client: Client): State
      requires IsClient(c)
    {
      this.(clients := clients[c := client])
    }
  }

  function Init(cap: nat, maxBody: nat): State {
    State(cap, maxBody, map[], [], [], {}, None)
  }

  datatype Step =
    // clients, joining or starting
    | Arrive(key: Key)
    | Subscribe(c: nat)
    | CopyAccumulated(c: nat)
    | SubscribeMeta(c: nat)
    | Insert(c: nat)
    | Listen(c: nat)
    | Spawn(c: nat)
    // clients, being served
    | ReadMeta(c: nat)
    | PollBody(c: nat)
    | Disconnect(c: nat)
    // the task of a generation
    | PublishMeta(g: nat, meta: ResponseMeta, cacheable: bool)
    | Push(g: nat, chunk: Bytes)
    | Send(g: nat)
    | BodyEnds(g: nat, timestamp: nat, ttl: Option<nat>)
    | FetchFails(g: nat, reason: string)
    | AnnounceComplete(g: nat)
    | NoteError(g: nat)
    | AnnounceError(g: nat)
    | Panic(g: nat)
    | DropGuard(g: nat)
    | DropSender(g: nat)

  predicate Enabled(s: State, step: Step) {
    match step
    case Arrive(_) => s.LockFree()
    case Subscribe(c) => s.IsClient(c) && s.clients[c].phase.Acquired? && s.Lookup(s.clients[c].key).Some?
    case CopyAccumulated(c) => s.IsClient(c) && s.clients[c].phase.Subscribed? && s.IsGen(s.clients[c].gen)
    case SubscribeMeta(c) => s.IsClient(c) && s.clients[c].phase.Copied?
    case Insert(c) => s.IsClient(c) && s.clients[c].phase.Acquired? && s.Lookup(s.clients[c].key).None?
    case Listen(c) => s.IsClient(c) && s.clients[c].phase.Inserted? && s.IsGen(s.clients[c].gen)
    case Spawn(c) => s.IsClient(c) && s.clients[c].phase.Listening? && s.IsGen(s.clients[c].gen)
    case ReadMeta(c) =>
      && s.IsClient(c) && s.clients[c].phase.Waiting? && s.IsGen(s.clients[c].gen)
      && (s.gens[s.clients[c].gen].shared.meta.Some? || !s.InTable(s.clients[c].gen))
    case PollBody(c) => s.IsClient(c) && s.clients[c].phase.Serving? && s.IsGen(s.clients[c].gen)
    case Disconnect(c) => s.IsClient(c) && (s.clients[c].phase.Waiting? || s.clients[c].phase.Serving?)
    case PublishMeta(g, _, _) => s.IsGen(g) && s.gens[g].phase.Fetching? && s.writer.None?
    case Push(g, chunk) =>
      && s.IsGen(g) && s.gens[g].phase.Reading? && s.writer.None?
      && s.gens[g].fetch.Fits(chunk, s.maxBody)
    case Send(g) => s.IsGen(g) && s.gens[g].phase.Offering?
    case BodyEnds(g, _, _) => s.IsGen(g) && s.gens[g].phase.Reading?
    case FetchFails(g, _) => s.IsGen(g) && (s.gens[g].phase.Fetching? || s.gens[g].phase.Reading?)
    case AnnounceComplete(g) => s.IsGen(g) && s.gens[g].phase == Returned(Succeeded)
    case NoteError(g) =>
      s.IsGen(g) && s.gens[g].phase.Returned? && s.gens[g].phase.outcome.Failed? && s.writer.None?
    case AnnounceError(g) => s.IsGen(g) && s.gens[g].phase.ErrorNoted?
    case Panic(g) => s.IsGen(g) && (s.gens[g].phase.Fetching? || s.gens[g].phase.Reading?)
    case DropGuard(g) => s.IsGen(g) && s.gens[g].phase.Announced? && s.LockFree()
    case DropSender(g) => s.IsGen(g) && s.gens[g].phase.Released?
  }

  /** The state a poll leaves a client in. */
  function Polled(client: Client, ring: seq<Message>, cap: nat, closed: bool): Client {
    var (body, poll) := PollFrame(client.body, ring, cap, closed);
    if client.body.finished then client
    else
      match poll
      case Frame(bytes) => client.(body := body, received := client.received + [bytes])
      case EndOfStream =>
        client.(body := body, end := if client.body.next < |ring| then ByComplete else ByClosed)
      case Failure(_) => client.(body := body, end := Broken)
      case Pending => client
  }

  function Next(s: State, step: Step): State
    requires Enabled(s, step)
  {
    match step
    case Arrive(key) =>
      s.(clients := s.clients + [Client(key, Acquired, 0, Body([], 0, 0, false), [], Open, false)],
         writer := Some(|s.clients|))
    case Subscribe(c) =>
      var g := s.Lookup(s.clients[c].key).value;
      s.WithClient(c, s.clients[c].(
        phase := Subscribed, gen := g, late := s.gens[g].phase.Past(),
        body := Body([], 0, |s.gens[g].shared.ring|, false)))
    case CopyAccumulated(c) =>
      var client := s.clients[c];
      s.WithClient(c, client.(
        phase := Copied, body := client.body.(initial := s.gens[client.gen].shared.accumulated)))
    case SubscribeMeta(c) =>
      s.WithClient(c, s.clients[c].(phase := Waiting)).(writer := None)
    case Insert(c) =>
      var key := s.clients[c].key;
      var fetch := Fetch(false, ResponseMeta(0, []), 0, []);
      s.WithClient(c, s.clients[c].(phase := Inserted, gen := |s.gens|)).(
        gens := s.gens + [Generation(key, c, FRESH, Unspawned, fetch, None, false, false)],
        downloads := s.downloads[key := |s.gens|],
        writer := None)
    case Listen(c) =>
      var next := |s.gens[s.clients[c].gen].shared.ring|;
      s.WithClient(c, s.clients[c].(phase := Listening, body := Body([], 0, next, false)))
    case Spawn(c) =>
      s.WithPhase(s.clients[c].gen, Fetching).WithClient(c, s.clients[c].(phase := Waiting))
    case ReadMeta(c) =>
      var meta := s.gens[s.clients[c].gen].shared.meta;
      var phase := if meta.Some? && meta.value.Published? then Serving else Refused;
      s.WithClient(c, s.clients[c].(phase := phase))
    case PollBody(c) =>
      var g := s.clients[c].gen;
      s.WithClient(c, Polled(s.clients[c], s.gens[g].shared.ring, s.cap, s.ChannelClosed(g)))
    case Disconnect(c) =>
      s.WithClient(c, s.clients[c].(phase := Gone))
    case PublishMeta(g, meta, cacheable) =>
      var gen := s.gens[g];
      var live := s.MetaReceiverLive(g);
      var s1 := match s.Lookup(gen.key)
        case Some(h) =>
          s.WithShared(h, s.gens[h].shared.SetMeta(Published(meta), s.MetaReceiverLive(h)))
        case None => s;
      s1.(gens := s1.gens[g := s1.gens[g].(
        phase := Reading, fetch := Fetch(cacheable, meta, 0, []), headersOut := live)])
    case Push(g, chunk) =>
      var gen := s.gens[g];
      var s1 := match s.Lookup(gen.key)
        case Some(h) => s.WithShared(h, s.gens[h].shared.Push(chunk))
        case None => s;
      s1.(gens := s1.gens[g := s1.gens[g].(phase := Offering(chunk), fetch := gen.fetch.Take(chunk))],
          readers := s.readers + {g})
    case Send(g) =>
      var gen := s.gens[g];
      var s1 := match s.Lookup(gen.key)
        case Some(h) => s.WithShared(h, s.gens[h].shared.Send(Data(gen.phase.chunk), s.ReceiverLive(h)))
        case None => s;
      s1.WithPhase(g, Reading).(readers := s.readers - {g})
    case BodyEnds(g, timestamp, ttl) =>
      var gen := s.gens[g];
      var stored :=
        if gen.fetch.cacheable && ttl.Some? then Some(gen.fetch.Entry(timestamp, ttl.value)) else None;
      s.(gens := s.gens[g := gen.(phase := Returned(Succeeded), stored := stored)])
    case FetchFails(g, reason) => s.WithPhase(g, Returned(Failed(reason)))
    case AnnounceComplete(g) =>
      s.WithShared(g, s.gens[g].shared.Send(Complete, s.ReceiverLive(g))).WithPhase(g, Announced(Succeeded))
    case NoteError(g) =>
      var gen := s.gens[g];
      var reason := gen.phase.outcome.reason;
      var live := s.MetaReceiverLive(g);
      var s1 := match s.Lookup(gen.key)
        case Some(h) =>
          s.WithShared(h, s.gens[h].shared.SetMeta(Refusal(reason), s.MetaReceiverLive(h)))
        case None => s;
      s1.(gens := s1.gens[g := s1.gens[g].(phase := ErrorNoted(reason), errorNoted := live)])
    case AnnounceError(g) =>
      var reason := s.gens[g].phase.reason;
      s.WithShared(g, s.gens[g].shared.Send(Error(reason), s.ReceiverLive(g))).WithPhase(g, Announced(Failed(reason)))
    case Panic(g) => s.WithPhase(g, Announced(Panicked))
    case DropGuard(g) =>
      s.WithPhase(g, Released(s.gens[g].phase.outcome)).(downloads := s.downloads - {s.gens[g].key})
    case DropSender(g) => s.WithPhase(g, Ended(s.gens[g].phase.outcome))
  }

  ghost predicate ValidRun(s: State, run: seq<Step>)
    decreases |run|
  {
    run == [] || (Enabled(s, run[0]) && ValidRun(Next(s, run[0]), run[1..]))
  }

  ghost function Exec(s: State, run: seq<Step>): State
    requires ValidRun(s, run)
    decreases |run|
  {
    if run == [] then s else Exec(Next(s, run[0]), run[1..])
  }

  lemma {:induction false} RunAppend(s: State, first: seq<Step>, second: seq<Step>)
    requires ValidRun(s, first) && ValidRun(Exec(s, first), second)
    ensures ValidRun(s, first + second)
    ensures Exec(s, first + second) == Exec(Exec(s, first), second)
    decreases |first|
  {
    if first == [] {
      assert first + second == second;
    } else {
      RunAppend(Next(s, first[0]), first[1..], second);
      assert (first + second)[1..] == first[1..] + second;
    }
  }
}
