/** The forwarder of one node: its writers, their shared byte budget and its inbox
    (crates/fofoca-iroh-multihop-transport/src/underlay.rs). */
module Forwarders {
  import opened Collections
  import opened Options
  import opened Routes
  import opened Relays

  const WRITER_QUEUE: nat := 128
  const MAX_WRITERS: nat := 64
  const FORWARD_QUEUE_BYTES: nat := 32 * 1024 * 1024

  // A writer's queue, and the cell it is writing. A queue outlives its place in the writer table until
  // its writer gives up.
  datatype Channel<+I> = Channel(key: I, cells: seq<Cell<I>>, writing: Option<Cell<I>>, open: bool)

  function CellBytes<I>(cells: seq<Cell<I>>): nat {
    if cells == [] then 0 else |cells[0].packet| + CellBytes(cells[1..])
  }

  // What a writer's cells cost: those in its queue and the one being written.
  function Charge<I>(channel: Channel<I>): nat {
    CellBytes(channel.cells) + if channel.writing.Some? then |channel.writing.value.packet| else 0
  }

  function QueuedIn<I>(channels: seq<Channel<I>>): nat {
    if channels == [] then 0 else QueuedIn(channels[..|channels| - 1]) + Charge(channels[|channels| - 1])
  }

  lemma {:induction false} CellBytesGrow<I>(cells: seq<Cell<I>>, cell: Cell<I>)
    ensures CellBytes(cells + [cell]) == CellBytes(cells) + |cell.packet|
  {
    if cells != [] {
      assert (cells + [cell])[1..] == cells[1..] + [cell];
      CellBytesGrow(cells[1..], cell);
    }
  }

  // Changing one queue changes the total by as much.
  lemma {:induction false} QueuedInChanges<I>(channels: seq<Channel<I>>, c: nat, channel: Channel<I>)
    requires c < |channels|
    ensures QueuedIn(channels[c := channel]) == QueuedIn(channels) - Charge(channels[c]) + Charge(channel)
  {
    var n := |channels| - 1;
    if c < n {
      QueuedInChanges(channels[..n], c, channel);
      assert channels[c := channel][..n] == channels[..n][c := channel];
    } else {
      assert channels[c := channel][..n] == channels[..n];
    }
  }

  // What queueing a cell for a hop comes to: it joins the hop's queue if that has room, else it starts a
  // new one that takes the old one's place. A cell over the byte budget, or for one hop too many, is
  // dropped. No other queue is touched.
  ghost function Enqueued<I>(channels: seq<Channel<I>>, writers: map<I, nat>, queued: nat, key: I, cell: Cell<I>)
    : (seq<Channel<I>>, map<I, nat>)
    requires forall k :: k in writers ==> writers[k] < |channels|
  {
    if queued + |cell.packet| > FORWARD_QUEUE_BYTES ||
        (key !in writers && |writers| == MAX_WRITERS) then (channels, writers)
    else if key in writers && |channels[writers[key]].cells| < WRITER_QUEUE then
      var c := writers[key];
      (channels[c := channels[c].(cells := channels[c].cells + [cell])], writers)
    else (channels + [Channel(key, [cell], None, true)], writers[key := |channels|])
  }

  // Within the budget, a cell for a hop whose queue has room is kept, and comes last; one for a hop whose
  // queue is full, or that has none while the table has room, is the first of a new queue.
  lemma EnqueuedWhen<I>(channels: seq<Channel<I>>, writers: map<I, nat>, queued: nat, key: I, cell: Cell<I>)
    requires forall k :: k in writers ==> writers[k] < |channels|
    ensures var now := Enqueued(channels, writers, queued, key, cell);
            var fits := queued + |cell.packet| <= 32 * 1024 * 1024;
            && (!fits ==> now == (channels, writers))
            && (fits && key in writers && |channels[writers[key]].cells| < 128 ==>
                  && now.1 == writers && |now.0| == |channels|
                  && now.0[writers[key]] == channels[writers[key]].(cells := channels[writers[key]].cells + [cell])
                  && forall c :: 0 <= c < |channels| && c != writers[key] ==> now.0[c] == channels[c])
            && (fits && key !in writers && |writers| == 64 ==> now == (channels, writers))
            && (fits && (if key in writers then |channels[writers[key]].cells| >= 128 else |writers| != 64) ==>
                  now == (channels + [Channel(key, [cell], None, true)], writers[key := |channels|]))
  {
  }

  // The table points at live queues of the right hop, and neither the table nor a queue is over its size.
  ghost predicate Tidy<I>(channels: seq<Channel<I>>, writers: map<I, nat>) {
    && (forall k :: k in writers ==> writers[k] < |channels| && channels[writers[k]].open && channels[writers[k]].key == k)
    && |writers| <= MAX_WRITERS
    && forall c :: 0 <= c < |channels| ==> |channels[c].cells| <= WRITER_QUEUE && (!channels[c].open ==> channels[c].cells == [] && channels[c].writing == None)
  }

  lemma EnqueueingKeepsTidy<I>(channels: seq<Channel<I>>, writers: map<I, nat>, queued: nat, key: I, cell: Cell<I>)
    requires Tidy(channels, writers)
    ensures var (c, w) := Enqueued(channels, writers, queued, key, cell); Tidy(c, w)
  {
  }

  // So does closing an emptied queue that the table no longer points at.
  lemma GivingUpKeepsTidy<I>(channels: seq<Channel<I>>, writers: map<I, nat>, c: nat, left: map<I, nat>)
    requires Tidy(channels, writers) && c < |channels|
    requires forall k :: k in left ==> k in writers && left[k] == writers[k] != c
    ensures Tidy(channels[c := Channel(channels[c].key, [], None, false)], left)
  {
    PartIsSmaller(left.Keys, writers.Keys);
  }

  // A queue that another has replaced in the table gets no more cells, and never comes back.
  lemma ReplacedGetsNothing<I>(channels: seq<Channel<I>>, writers: map<I, nat>, queued: nat, key: I, cell: Cell<I>,
                               c: nat)
    requires Tidy(channels, writers) && c < |channels| && c !in writers.Values
    ensures var (after, w) := Enqueued(channels, writers, queued, key, cell);
            c < |after| && after[c] == channels[c] && c !in w.Values
  {
  }

  // A queue is replaced exactly when a cell for its hop finds it full, within the budget.
  lemma ReplacedWhenFull<I>(channels: seq<Channel<I>>, writers: map<I, nat>, queued: nat, key: I, cell: Cell<I>, k: I)
    requires Tidy(channels, writers) && k in writers
    ensures var (_, w) := Enqueued(channels, writers, queued, key, cell);
            writers[k] !in w.Values <==>
            && k == key && |channels[writers[k]].cells| == WRITER_QUEUE && queued + |cell.packet| <= FORWARD_QUEUE_BYTES
  {
    var (_, w) := Enqueued(channels, writers, queued, key, cell);
    assert k in w && (w[k] == writers[k] ==> writers[k] in w.Values);
    forall other | other in w && w[other] == writers[k] ensures other == k {
      assert w[other] < |channels| ==> other in writers && writers[other] == w[other];
    }
  }

  lemma OnlyItsOwnEntry<I>(channels: seq<Channel<I>>, writers: map<I, nat>, c: nat)
    requires Tidy(channels, writers) && c < |channels|
    ensures forall k :: k in writers && writers[k] == c ==> k == channels[c].key
  {
  }

  class Forwarder<I(==)> {
    const me: Node<I>
    const inboxSize: nat
    var channels: seq<Channel<I>>
    var writers: map<I, nat>
    var queuedBytes: nat
    var inbox: seq<(seq<RouteHop<I>>, seq<Byte>)>

    // The queues are tidy, the budget is spent on what is queued and nothing else, and the inbox has kept
    // to its size.
    ghost predicate Valid()
      reads this
    {
      && Tidy(channels, writers)
      && queuedBytes == QueuedIn(channels) <= FORWARD_QUEUE_BYTES
      && |inbox| <= inboxSize
    }

    constructor (me: Node<I>, inboxSize: nat)
      ensures Valid() && this.me == me && this.inboxSize == inboxSize && channels == [] && inbox == []
    {
      this.me, this.inboxSize := me, inboxSize;
      channels, writers, queuedBytes, inbox := [], map[], 0, [];
    }

    method Enqueue(hop: RouteHop<I>, cell: Cell<I>)
      requires Valid()
      modifies this
      ensures Valid() && inbox == old(inbox)
      ensures (channels, writers) == Enqueued(old(channels), old(writers), old(queuedBytes), hop.underlay.id, cell)
    {
      hide QueuedIn, CellBytes, Tidy;
      var cost, key := |cell.packet|, hop.underlay.id;
      queuedBytes := queuedBytes + cost;
      EnqueueingKeepsTidy(channels, writers, old(queuedBytes), key, cell);
      TableInRange();
      if queuedBytes > FORWARD_QUEUE_BYTES {
        queuedBytes := queuedBytes - cost;
        return;
      }
      if key in writers {
        var sent := TrySend(writers[key], cell);
        if sent {
          return;
        }
      }
      var started := StartWith(key, cell);
      if !started {
        queuedBytes := queuedBytes - cost;
      }
    }

    // Start a new queue with a cell.
    method StartWith(key: I, cell: Cell<I>) returns (started: bool)
      modifies `channels, `writers
      ensures started <==> !(|old(writers)| >= MAX_WRITERS && key !in old(writers))
      ensures !started ==> channels == old(channels) && writers == old(writers)
      ensures started ==> channels == old(channels) + [Channel(key, [cell], None, true)]
      ensures started ==> writers == old(writers)[key := |old(channels)|]
      ensures QueuedIn(channels) == QueuedIn(old(channels)) + if started then |cell.packet| else 0
    {
      hide QueuedIn;
      var spawned := SpawnWriter(key);
      if spawned == None {
        return false;
      }
      started := TrySend(spawned.value, cell);
      assert [] + [cell] == [cell];
      assert channels == old(channels) + [Channel(key, [cell], None, true)];
    }

    lemma TableInRange()
      requires Tidy(channels, writers)
      ensures |writers| <= MAX_WRITERS && forall k :: k in writers ==> writers[k] < |channels| && channels[writers[k]].open
    {
    }

    // Put a cell on a queue, unless it is closed or full.
    method TrySend(c: nat, cell: Cell<I>) returns (sent: bool)
      requires c < |channels|
      modifies `channels
      ensures sent <==> old(channels)[c].open && |old(channels)[c].cells| < WRITER_QUEUE
      ensures channels == if sent then old(channels)[c := old(channels)[c].(cells := old(channels)[c].cells + [cell])]
          else old(channels)
      ensures QueuedIn(channels) == QueuedIn(old(channels)) + if sent then |cell.packet| else 0
    {
      sent := channels[c].open && |channels[c].cells| < WRITER_QUEUE;
      if sent {
        CellBytesGrow(channels[c].cells, cell);
        QueuedInChanges(channels, c, channels[c].(cells := channels[c].cells + [cell]));
        channels := channels[c := channels[c].(cells := channels[c].cells + [cell])];
      }
    }

    // A new queue for a hop, in place of any it had; refused when the table is full of others.
    method SpawnWriter(key: I) returns (spawned: Option<nat>)
      modifies `channels, `writers
      ensures spawned == None <==> |old(writers)| >= MAX_WRITERS && key !in old(writers)
      ensures spawned == None ==> channels == old(channels) && writers == old(writers)
      ensures spawned.Some? ==>
                && spawned.value == |old(channels)| && channels == old(channels) + [Channel(key, [], None, true)]
                && writers == old(writers)[key := spawned.value]
                && |writers| == |old(writers)| + if key in old(writers) then 0 else 1
      ensures QueuedIn(channels) == QueuedIn(old(channels))
    {
      if |writers| >= MAX_WRITERS && key !in writers {
        return None;
      }
      assert key in writers ==> writers.Keys + {key} == writers.Keys;
      assert writers[key := |channels|].Keys == writers.Keys + {key};
      spawned := Some(|channels|);
      writers := writers[key := |channels|];
      channels := channels + [Channel(key, [], None, true)];
      assert channels[..|channels| - 1] == old(channels);
    }

    // A writer takes its oldest cell off the queue to write it; the cell stays charged.
    method TakeOne(c: nat)
      requires Valid() && c < |channels| && channels[c].cells != [] && channels[c].writing == None
      modifies `channels
      ensures Valid()
      ensures var was := old(channels)[c];
              channels == old(channels)[c := was.(cells := was.cells[1..], writing := Some(was.cells[0]))]
    {
      hide QueuedIn;
      QueuedInChanges(channels, c, channels[c].(cells := channels[c].cells[1..], writing := Some(channels[c].cells[0])));
      channels := channels[c := channels[c].(cells := channels[c].cells[1..], writing := Some(channels[c].cells[0]))];
    }

    // The write is over, well or badly: the cell's bytes are given back.
    method FinishOne(c: nat)
      requires Valid() && c < |channels| && channels[c].writing.Some?
      modifies `channels, `queuedBytes
      ensures Valid() && channels == old(channels)[c := old(channels)[c].(writing := None)]
      ensures queuedBytes == old(queuedBytes) - |old(channels)[c].writing.value.packet|
    {
      hide QueuedIn;
      var cost := |channels[c].writing.value.packet|;
      QueuedInChanges(channels, c, channels[c].(writing := None));
      channels := channels[c := channels[c].(writing := None)];
      queuedBytes := queuedBytes - cost;
    }

    // A writer gives up: it leaves the table, unless another has taken its place, and gives back the
    // bytes of everything still queued.
    method GiveUp(c: nat)
      requires Valid() && c < |channels| && channels[c].open && channels[c].writing == None
      modifies `channels, `writers, `queuedBytes
      ensures Valid()
      ensures channels == old(channels)[c := Channel(old(channels)[c].key, [], None, false)]
      ensures forall k :: k in writers <==> k in old(writers) && old(writers)[k] != c
      ensures forall k :: k in writers ==> writers[k] == old(writers)[k]
      ensures queuedBytes == old(queuedBytes) - CellBytes(old(channels)[c].cells)
    {
      hide QueuedIn, CellBytes, Tidy;
      OnlyItsOwnEntry(channels, writers, c);
      Retire(channels[c].key, c);
      Drain(c);
      GivingUpKeepsTidy(old(channels), old(writers), c, writers);
    }

    // Close a queue and empty it, giving back every cell's bytes.
    method Drain(c: nat)
      requires c < |channels| && channels[c].writing == None && queuedBytes == QueuedIn(channels)
      modifies `channels, `queuedBytes
      ensures channels == old(channels)[c := Channel(old(channels)[c].key, [], None, false)]
      ensures queuedBytes == QueuedIn(channels) == old(queuedBytes) - CellBytes(old(channels)[c].cells)
    {
      hide QueuedIn;
      QueuedInChanges(channels, c, channels[c].(open := false));
      channels := channels[c := channels[c].(open := false)];
      ghost var key := channels[c].key;
      while channels[c].cells != []
        invariant c < |channels| && channels == old(channels)[c := Channel(key, channels[c].cells, None, false)]
        invariant queuedBytes == QueuedIn(channels)
        invariant queuedBytes == old(queuedBytes) - CellBytes(old(channels)[c].cells) + CellBytes(channels[c].cells)
        decreases |channels[c].cells|
      {
        var cell := channels[c].cells[0];
        QueuedInChanges(channels, c, channels[c].(cells := channels[c].cells[1..]));
        channels := channels[c := channels[c].(cells := channels[c].cells[1..])];
        queuedBytes := queuedBytes - |cell.packet|;
      }
    }

    // Drop a hop's entry, but only if it is still this writer's.
    method Retire(key: I, c: nat)
      modifies `writers
      ensures writers == if key in old(writers) && old(writers)[key] == c then old(writers) - {key} else old(writers)
      ensures |writers| <= |old(writers)|
    {
      if key in writers && writers[key] == c {
        assert (writers - {key}).Keys == writers.Keys - {key};
        writers := writers - {key};
      }
    }

    // Process a cell as the gates say: pass it on, deliver it, or drop it without a trace.
    method HandleCell(cell: Cell<I>, from: I)
      requires Valid() && Readable(cell)
      modifies this
      ensures Valid()
      ensures match Handled(me, cell, from)
              case Drop => channels == old(channels) && writers == old(writers) && inbox == old(inbox)
              case Forward(next, on) =>
                && inbox == old(inbox)
                && (channels, writers) == Enqueued(old(channels), old(writers), old(queuedBytes), next.underlay.id, on)
              case Deliver(remote, packet) =>
                && channels == old(channels) && writers == old(writers)
                && inbox == if |old(inbox)| < inboxSize then old(inbox) + [(remote, packet)] else old(inbox)
    {
      hide Legal, ReverseFrom, QueuedIn, CellBytes, Enqueued, Tidy;
      TableInRange();
      var here := CurrentHop(cell);
      if here == None || !IsSelf(me, here.value) {
        return;
      }
      var upstream := ExpectedUpstream(cell);
      if upstream == None || upstream.value.underlay.id != from {
        return;
      }
      var next := NextHop(cell);
      if next.Some? {
        Enqueue(next.value, Advanced(cell));
      } else {
        Deliver(cell);
      }
    }

    method Deliver(cell: Cell<I>)
      modifies `inbox
      ensures inbox == if |old(inbox)| < inboxSize && ReverseFrom(cell.path, cell.source).Some?
                       then old(inbox) + [(ReverseFrom(cell.path, cell.source).value, cell.packet)] else old(inbox)
    {
      var route := ReverseFrom(cell.path, cell.source);
      if route.Some? && |inbox| < inboxSize {
        inbox := inbox + [(route.value, cell.packet)];
      }
    }
  }
}
