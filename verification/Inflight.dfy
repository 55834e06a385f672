/**
 The table of downloads in flight with its channels, updated in place. Each
 operation does to what a download shares what the steps of the state machine do.
 */
module Inflight {
  import opened Common
  import opened Streaming
  import opened Protocol

  // ---------------------------------------------------------------- channels

  /** A bounded broadcast channel: what it stored, and who is still there. */
  class Broadcast {
    const capacity: nat
    var stored: seq<Message>
    var receivers: nat
    var senders: nat

    constructor (capacity: nat)
      ensures this.capacity == capacity && stored == [] && receivers == 0 && senders == 1
    {
      this.capacity, stored, receivers, senders := capacity, [], 0, 1;
    }

    /** Without a receiver the message is dropped. */
    method Send(m: Message)
      modifies this`stored
      ensures stored == if receivers > 0 then old(stored) + [m] else old(stored)
    {
      if receivers > 0 { stored := stored + [m]; }
    }

    /** A new receiver starts behind everything stored so far. */
    method Subscribe() returns (receiver: Receiver)
      modifies this`receivers
      ensures receivers == old(receivers) + 1
      ensures fresh(receiver) && receiver.channel == this && receiver.next == |stored|
    {
      receivers := receivers + 1;
      receiver := new Receiver(this);
    }

    method CloneSender()
      modifies this`senders
      ensures senders == old(senders) + 1
    {
      senders := senders + 1;
    }

    method DropSender()
      requires senders > 0
      modifies this`senders
      ensures senders == old(senders) - 1
    {
      senders := senders - 1;
    }
  }

  datatype Received = Got(m: Message) | Missed(count: nat) | Closed | Empty

  class Receiver {
    const channel: Broadcast
    var next: nat

    constructor (channel: Broadcast)
      ensures this.channel == channel && next == |channel.stored|
    {
      this.channel, next := channel, |channel.stored|;
    }

    /** Overwritten messages are reported once; stored ones come before closure. */
    method Receive() returns (r: Received)
      modifies this`next
      ensures Lagged(old(next), channel.stored, channel.capacity) ==>
                r == Missed(|channel.stored| - channel.capacity - old(next))
                && next == |channel.stored| - channel.capacity
      ensures !Lagged(old(next), channel.stored, channel.capacity) && old(next) < |channel.stored| ==>
                r == Got(channel.stored[old(next)]) && next == old(next) + 1
      ensures !Lagged(old(next), channel.stored, channel.capacity) && old(next) >= |channel.stored| ==>
                r == (if channel.senders == 0 then Closed else Empty) && next == old(next)
    {
      if |channel.stored| > next + channel.capacity {
        r := Missed(|channel.stored| - channel.capacity - next);
        next := |channel.stored| - channel.capacity;
      } else if next < |channel.stored| {
        r := Got(channel.stored[next]);
        next := next + 1;
      } else {
        r := if channel.senders == 0 then Closed else Empty;
      }
    }
  }

  /** A watched value; without a receiver it stays as it was. */
  class Watch {
    var value: Option<MetaResult>
    var receivers: nat

    constructor ()
      ensures value == None && receivers == 1
    {
      value, receivers := None, 1;
    }

    method Send(result: MetaResult)
      modifies this`value
      ensures value == if receivers > 0 then Some(result) else old(value)
    {
      if receivers > 0 { value := Some(result); }
    }

    method Subscribe()
      modifies this`receivers
      ensures receivers == old(receivers) + 1
    {
      receivers := receivers + 1;
    }
  }

  // ---------------------------------------------------------------- the table

  class DownloadState {
    const sender: Broadcast
    const metaTx: Watch
    var accumulated: seq<Bytes>
    /** The payloads given to the channel, stored there or not. */
    ghost var offered: seq<Bytes>

    constructor (sender: Broadcast, metaTx: Watch)
      ensures this.sender == sender && this.metaTx == metaTx && accumulated == [] && offered == []
    {
      this.sender, this.metaTx, accumulated, offered := sender, metaTx, [], [];
    }

    ghost function Shares(): Shared
      reads this, sender, metaTx
    {
      Shared(accumulated, offered, sender.stored, metaTx.value)
    }
  }

  datatype DownloadAction =
    | Joined(receiver: Receiver, accumulated: seq<Bytes>, metaRx: Watch)
    | Started(sender: Broadcast, metaRx: Watch)

  datatype Holding = Holding(receivers: nat, senders: nat, metaReceivers: nat)

  const CAPACITY: nat := 1000

  class InflightDownloads {
    var downloads: map<Key, DownloadState>

    /** No two downloads share anything. */
    ghost predicate Valid()
      reads this
    {
      forall j, k :: j in downloads && k in downloads && j != k ==>
        && downloads[j] != downloads[k]
        && downloads[j].sender != downloads[k].sender && downloads[j].metaTx != downloads[k].metaTx
    }

    /** Everything the operations on one download may change. */
    ghost function Parts(key: Key): set<object>
      reads this
    {
      if key in downloads then {downloads[key], downloads[key].sender, downloads[key].metaTx} else {}
    }

    /** What a download shares with its clients. */
    ghost function Sharing(key: Key): Shared
      requires key in downloads
      reads this, Parts(key)
    {
      downloads[key].Shares()
    }

    /** Who holds on to the channels of a download. */
    ghost function Holders(key: Key): Holding
      requires key in downloads
      reads this, Parts(key)
    {
      Holding(downloads[key].sender.receivers, downloads[key].sender.senders, downloads[key].metaTx.receivers)
    }

    /** Joins the download of the key or, if there is none, starts one: never both. */
    method JoinOrStartDownload(key: Key) returns (action: DownloadAction)
      requires Valid()
      modifies this, Parts(key)
      ensures Valid()
      ensures key in old(downloads) ==>
                && downloads == old(downloads) && Sharing(key) == old(Sharing(key))
                && action.Joined?
                && action.receiver.channel == downloads[key].sender && action.metaRx == downloads[key].metaTx
                && action.receiver.next == |Sharing(key).ring|
                && action.accumulated == Sharing(key).accumulated
                && Holders(key) == (var h := old(Holders(key));
                                    Holding(h.receivers + 1, h.senders, h.metaReceivers + 1))
      ensures key !in old(downloads) ==>
                && key in downloads && downloads == old(downloads)[key := downloads[key]]
                && fresh(Parts(key)) && Sharing(key) == FRESH
                && action == Started(downloads[key].sender, downloads[key].metaTx)
                && action.sender.capacity == 1000 && Holders(key) == Holding(0, 2, 1)
    {
      if key in downloads {
        var state := downloads[key];
        var receiver := state.sender.Subscribe();
        var accumulated := state.accumulated;
        state.metaTx.Subscribe();
        action := Joined(receiver, accumulated, state.metaTx);
      } else {
        var sender := new Broadcast(CAPACITY);
        var metaTx := new Watch();
        sender.CloneSender();
        var state := new DownloadState(sender, metaTx);
        downloads := downloads[key := state];
        action := Started(sender, metaTx);
      }
    }

    method SetResponseMeta(key: Key, meta: ResponseMeta)
      requires Valid()
      modifies Parts(key)
      ensures key in downloads ==>
                && Sharing(key) == old(Sharing(key)).SetMeta(Published(meta), old(Holders(key)).metaReceivers > 0)
                && Holders(key) == old(Holders(key))
    {
      if key in downloads {
        downloads[key].metaTx.Send(Published(meta));
      }
    }

    method SetResponseError(key: Key, reason: string)
      requires Valid()
      modifies Parts(key)
      ensures key in downloads ==>
                && Sharing(key) == old(Sharing(key)).SetMeta(Refusal(reason), old(Holders(key)).metaReceivers > 0)
                && Holders(key) == old(Holders(key))
    {
      if key in downloads {
        downloads[key].metaTx.Send(Refusal(reason));
      }
    }

    /** Remembers the chunk for later joiners, then sends it to those already there. */
    method AddChunk(key: Key, chunk: Bytes)
      requires Valid()
      modifies Parts(key)
      ensures key in downloads ==>
                && Sharing(key)
                   == old(Sharing(key)).Push(chunk).Send(Data(chunk), old(Holders(key)).receivers > 0)
                && Holders(key) == old(Holders(key))
    {
      if key in downloads {
        var state := downloads[key];
        state.accumulated := state.accumulated + [chunk];
        state.offered := state.offered + [chunk];
        state.sender.Send(Data(chunk));
      }
    }

    /** Takes the download off the table, and with it the table's sender. */
    method CompleteDownload(key: Key)
      requires Valid() && (key in downloads ==> downloads[key].sender.senders > 0)
      modifies this, Parts(key)
      ensures Valid() && downloads == old(downloads) - {key}
      ensures key in old(downloads) ==>
                && old(downloads[key]).Shares() == old(Sharing(key))
                && old(downloads[key]).sender.senders == old(downloads[key].sender.senders) - 1
                && old(downloads[key]).sender.receivers == old(downloads[key].sender.receivers)
    {
      if key in downloads {
        downloads[key].sender.DropSender();
      }
      downloads := downloads - {key};
    }
  }

  // ---------------------------------------------------------------- the client's body

  class StreamingBody {
    const stream: Receiver
    const initialChunks: seq<Bytes>
    var initialIndex: nat
    var finished: bool

    constructor (receiver: Receiver, initialChunks: seq<Bytes>)
      ensures stream == receiver && this.initialChunks == initialChunks
      ensures Progress() == Body(initialChunks, 0, receiver.next, false)
    {
      stream, this.initialChunks, initialIndex, finished := receiver, initialChunks, 0, false;
    }

    ghost function Progress(): Body
      reads this, stream
    {
      Body(initialChunks, initialIndex, stream.next, finished)
    }

    /** The body the state machine polls is this one. */
    method PollFrame() returns (r: Poll)
      modifies this, stream
      ensures
        var channel := stream.channel;
        (Progress(), r) == Streaming.PollFrame(old(Progress()), channel.stored, channel.capacity, channel.senders == 0)
    {
      if finished { return EndOfStream; }
      if initialIndex < |initialChunks| {
        var chunk := initialChunks[initialIndex];
        initialIndex := initialIndex + 1;
        return Frame(chunk);
      }
      var received := stream.Receive();
      match received
      case Got(Data(bytes)) => return Frame(bytes);
      case Got(Complete) =>
        finished := true;
        return EndOfStream;
      case Got(Error(reason)) =>
        finished := true;
        return Failure(reason);
      case Missed(_) =>
        finished := true;
        return Failure("Stream lagged");
      case Closed =>
        finished := true;
        return EndOfStream;
      case Empty => return Pending;
    }
  }

  // ---------------------------------------------------------------- the end of a task

  /** What a download shares once its task has announced how it went. */
  function Finished(before: Shared, failure: Option<string>, holders: Holding): Shared {
    match failure
    case None => before.Send(Complete, holders.receivers > 0)
    case Some(reason) =>
      before.SetMeta(Refusal(reason), holders.metaReceivers > 0).Send(Error(reason), holders.receivers > 0)
  }

  /**
   Tells the clients how the download ended, drops the guard and then the task's
   own sender: the order the clients rely on.
   */
  method FinishTask(inflight: InflightDownloads, key: Key, sender: Broadcast, failure: Option<string>)
    requires inflight.Valid() && key in inflight.downloads
    requires inflight.downloads[key].sender == sender && sender.senders == 2
    modifies inflight, inflight.Parts(key)
    ensures inflight.Valid() && inflight.downloads == old(inflight.downloads) - {key}
    ensures sender.senders == 0
    ensures old(inflight.downloads[key]).Shares()
         == Finished(old(inflight.Sharing(key)), failure, old(inflight.Holders(key)))
  {
    match failure {
      case None => sender.Send(Complete);
      case Some(reason) =>
        inflight.SetResponseError(key, reason);
        sender.Send(Error(reason));
    }
    inflight.CompleteDownload(key);
    sender.DropSender();
  }
}
