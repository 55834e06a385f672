/**
 The client side of a download: what a broadcast receiver yields, and the body
 that serves the chunks of a late joiner before it listens to the broadcast.

 The broadcast channel is the sequence of messages it stored. A receiver is a
 position in that sequence; one that is more than the capacity behind has lost
 messages and is told so; stored messages are delivered before closure.
 */
module Streaming {
  import opened Common

  datatype Message = Data(bytes: Bytes) | Complete | Error(reason: string)

  datatype Body = Body(initial: seq<Bytes>, index: nat, next: nat, finished: bool)

  datatype Poll = Frame(bytes: Bytes) | EndOfStream | Failure(reason: string) | Pending

  /** The payloads of the data messages, in order. */
  function DataOf(messages: seq<Message>): seq<Bytes> {
    if messages == [] then []
    else (if messages[0].Data? then [messages[0].bytes] else []) + DataOf(messages[1..])
  }

  lemma {:induction false} DataOfSnoc(messages: seq<Message>, m: Message)
    ensures DataOf(messages + [m]) == DataOf(messages) + if m.Data? then [m.bytes] else []
  {
    if messages == [] {
    } else {
      DataOfSnoc(messages[1..], m);
      assert (messages + [m])[1..] == messages[1..] + [m];
    }
  }

  predicate Lagged(next: nat, ring: seq<Message>, cap: nat) {
    |ring| > next + cap
  }

  /** One poll of a body against a channel that stored `ring`. */
  function PollFrame(body: Body, ring: seq<Message>, cap: nat, closed: bool): (Body, Poll) {
    if body.finished then (body, EndOfStream)
    else if body.index < |body.initial| then
      (body.(index := body.index + 1), Frame(body.initial[body.index]))
    else if Lagged(body.next, ring, cap) then
      (body.(next := |ring| - cap, finished := true), Failure("Stream lagged"))
    else if body.next < |ring| then
      match ring[body.next]
      case Data(bytes) => (body.(next := body.next + 1), Frame(bytes))
      case Complete => (body.(next := body.next + 1, finished := true), EndOfStream)
      case Error(reason) => (body.(next := body.next + 1, finished := true), Failure(reason))
    else if closed then (body.(finished := true), EndOfStream)
    else (body, Pending)
  }

  /** The chunks a body still has to hand out, if it does not fall behind. */
  function Outstanding(body: Body, ring: seq<Message>): seq<Bytes>
    requires body.index <= |body.initial| && body.next <= |ring|
  {
    body.initial[body.index..] + DataOf(ring[body.next..])
  }

  /** Unread initial chunks, unread messages and the final end of stream. */
  function Remaining(body: Body, ring: seq<Message>): nat {
    if body.finished then 0
    else
      (if body.index < |body.initial| then |body.initial| - body.index else 0)
      + (if body.next < |ring| then |ring| - body.next else 0) + 1
  }

  /** A frame is the first outstanding chunk, whichever side it comes from. */
  lemma FrameIsNextOutstanding(body: Body, ring: seq<Message>, cap: nat, closed: bool)
    requires body.index <= |body.initial| && body.next <= |ring|
    requires PollFrame(body, ring, cap, closed).1.Frame?
    ensures
      var (after, poll) := PollFrame(body, ring, cap, closed);
      && after.index <= |after.initial| && after.next <= |ring| && !after.finished
      && Outstanding(body, ring) == [poll.bytes] + Outstanding(after, ring)
  {
    if body.index < |body.initial| {
      assert body.initial[body.index..] == [body.initial[body.index]] + body.initial[body.index + 1..];
    } else {
      assert body.initial[body.index..] == [];
      assert ring[body.next..][1..] == ring[body.next + 1..];
    }
  }

  /** Every poll of an unfinished body of a closed channel uses up part of what remains. */
  lemma ClosedPollProgresses(body: Body, ring: seq<Message>, cap: nat)
    requires body.next <= |ring| && !body.finished
    ensures
      var (after, poll) := PollFrame(body, ring, cap, true);
      && !poll.Pending?
      && after.next <= |ring|
      && Remaining(after, ring) < Remaining(body, ring)
      && (after.finished <==> !poll.Frame?)
  {}
}
