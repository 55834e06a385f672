/** Two short runs in which something is lost. */
module Scenarios {
  import opened Common
  import opened Streaming
  import opened Protocol
  import opened ProtocolInvariant
  import opened ProtocolTheorems

  function Started(cap: nat, maxBody: nat, key: Key): State {
    State(cap, maxBody, map[key := 0],
          [Generation(key, 0, FRESH, Fetching, Fetch(false, ResponseMeta(0, []), 0, []), None, false, false)],
          [Client(key, Waiting, 0, Body([], 0, 0, false), [], Open, false)], {}, None)
  }

  /** One request starts a download. */
  lemma StartedRun(cap: nat, maxBody: nat, key: Key) returns (run: seq<Step>)
    ensures ValidRun(Init(cap, maxBody), run) && Exec(Init(cap, maxBody), run) == Started(cap, maxBody, key)
  {
    var s := Init(cap, maxBody);
    Snoc(s, [], Arrive(key));
    run := [] + [Arrive(key)];
    Snoc(s, run, Insert(0));
    run := run + [Insert(0)];
    Snoc(s, run, Listen(0));
    run := run + [Listen(0)];
    Snoc(s, run, Spawn(0));
    run := run + [Spawn(0)];
  }

  lemma ReachableAfter(cap: nat, maxBody: nat, run: seq<Step>, step: Step)
    requires ValidRun(Init(cap, maxBody), run) && Enabled(Exec(Init(cap, maxBody), run), step)
    requires Exec(Init(cap, maxBody), run).cap == cap && Exec(Init(cap, maxBody), run).maxBody == maxBody
    ensures
      var t := Next(Exec(Init(cap, maxBody), run), step);
      && ValidRun(Init(cap, maxBody), run + [step]) && Exec(Init(cap, maxBody), run + [step]) == t
      && t.cap == cap && t.maxBody == maxBody && Reachable(t)
  {
    Snoc(Init(cap, maxBody), run, step);
  }

  /**
   The only client goes away before the headers arrive: they are published to
   nobody and kept nowhere, so whoever joins this download is refused.
   */
  lemma HeadersLost(cap: nat, maxBody: nat, key: Key, meta: ResponseMeta, cacheable: bool) returns (s: State)
    ensures Reachable(s) && Enabled(s, PublishMeta(0, meta, cacheable))
    ensures !SomebodyServed(Next(s, PublishMeta(0, meta, cacheable)), 0)
  {
    var run := StartedRun(cap, maxBody, key);
    ReachableAfter(cap, maxBody, run, Disconnect(0));
    s := Next(Started(cap, maxBody, key), Disconnect(0));
    assert !s.MetaReceiverLive(0);
    HeadersLostExactly(s, 0, meta, cacheable);
  }

  function BeingServed(cap: nat, maxBody: nat, key: Key, meta: ResponseMeta): State {
    var shared := FRESH.(meta := Some(Published(meta)));
    State(cap, maxBody, map[key := 0],
          [Generation(key, 0, shared, Reading, Fetch(false, meta, 0, []), None, true, false)],
          [Client(key, Serving, 0, Body([], 0, 0, false), [], Open, false)], {}, None)
  }

  /** Its headers arrive. */
  lemma ServedRun(cap: nat, maxBody: nat, key: Key, meta: ResponseMeta) returns (run: seq<Step>)
    ensures ValidRun(Init(cap, maxBody), run)
    ensures Exec(Init(cap, maxBody), run) == BeingServed(cap, maxBody, key, meta)
  {
    run := StartedRun(cap, maxBody, key);
    var s := Started(cap, maxBody, key);
    assert s.clients[0].phase.HoldsMetaReceiver() && s.MetaReceiverLive(0);
    ReachableAfter(cap, maxBody, run, PublishMeta(0, meta, false));
    run := run + [PublishMeta(0, meta, false)];
    ReachableAfter(cap, maxBody, run, ReadMeta(0));
    run := run + [ReadMeta(0)];
  }

  function FirstChunk(cap: nat, maxBody: nat, key: Key, meta: ResponseMeta, chunk: Bytes): State {
    var shared := Shared([chunk], [chunk], [Data(chunk)], Some(Published(meta)));
    State(cap, maxBody, map[key := 0],
          [Generation(key, 0, shared, Reading, Fetch(false, meta, |chunk|, []), None, true, false)],
          [Client(key, Serving, 0, Body([], 0, 0, false), [], Open, false)], {}, None)
  }

  function ChunkPushed(cap: nat, maxBody: nat, key: Key, meta: ResponseMeta, chunk: Bytes): State {
    var shared := Shared([chunk], [], [], Some(Published(meta)));
    State(cap, maxBody, map[key := 0],
          [Generation(key, 0, shared, Offering(chunk), Fetch(false, meta, |chunk|, []), None, true, false)],
          [Client(key, Serving, 0, Body([], 0, 0, false), [], Open, false)], {0}, None)
  }

  lemma FirstPush(cap: nat, maxBody: nat, key: Key, meta: ResponseMeta, chunk: Bytes)
    requires |chunk| <= maxBody
    ensures Enabled(BeingServed(cap, maxBody, key, meta), Push(0, chunk))
    ensures Next(BeingServed(cap, maxBody, key, meta), Push(0, chunk)) == ChunkPushed(cap, maxBody, key, meta, chunk)
  {
    var s, t := BeingServed(cap, maxBody, key, meta), ChunkPushed(cap, maxBody, key, meta, chunk);
    assert s.readers + {0} == t.readers;
    assert Next(s, Push(0, chunk)).gens[0] == t.gens[0];
    assert Next(s, Push(0, chunk)).gens == t.gens;
  }

  lemma FirstSend(cap: nat, maxBody: nat, key: Key, meta: ResponseMeta, chunk: Bytes)
    ensures Enabled(ChunkPushed(cap, maxBody, key, meta, chunk), Send(0))
    ensures Next(ChunkPushed(cap, maxBody, key, meta, chunk), Send(0)) == FirstChunk(cap, maxBody, key, meta, chunk)
  {
    var s, t := ChunkPushed(cap, maxBody, key, meta, chunk), FirstChunk(cap, maxBody, key, meta, chunk);
    assert s.clients[0].phase.HoldsReceiver() && s.ReceiverLive(0);
    assert s.readers - {0} == {};
    assert Next(s, Send(0)).gens[0] == t.gens[0];
  }

  /** And the first chunk. */
  lemma FirstChunkRun(cap: nat, maxBody: nat, key: Key, meta: ResponseMeta, chunk: Bytes) returns (run: seq<Step>)
    requires |chunk| <= maxBody
    ensures ValidRun(Init(cap, maxBody), run)
    ensures Exec(Init(cap, maxBody), run) == FirstChunk(cap, maxBody, key, meta, chunk)
  {
    run := ServedRun(cap, maxBody, key, meta);
    FirstPush(cap, maxBody, key, meta, chunk);
    FirstSend(cap, maxBody, key, meta, chunk);
    hide Enabled, Next, Init, BeingServed, ChunkPushed, FirstChunk;
    Snoc(Init(cap, maxBody), run, Push(0, chunk));
    run := run + [Push(0, chunk)];
    Snoc(Init(cap, maxBody), run, Send(0));
    run := run + [Send(0)];
  }

  /**
   The only client has its headers and the first chunk when the download fails:
   the error reaches nobody who could pass it on, and a client that joins just then
   takes the one chunk for the whole body.
   */
  lemma TruncatedLooksComplete(cap: nat, maxBody: nat, key: Key, meta: ResponseMeta, chunk: Bytes, reason: string)
    returns (s: State)
    requires |chunk| <= maxBody
    ensures Reachable(s) && Enabled(s, NoteError(0)) && s.gens[0].phase == Returned(Failed(reason))
    ensures SomebodyEndsCleanly(Next(s, NoteError(0)), 0)
  {
    var run := FirstChunkRun(cap, maxBody, key, meta, chunk);
    ReachableAfter(cap, maxBody, run, FetchFails(0, reason));
    s := Next(FirstChunk(cap, maxBody, key, meta, chunk), FetchFails(0, reason));
    hide Reachable, SomebodyEndsCleanly;
    assert !s.MetaReceiverLive(0);
    ErrorMissedExactly(s, 0);
  }
}
