/**
 The part of the driver's global block that its spin lock protects: the notification queue, the
 client port, the reservation count and the "inside FltSendMessage" flag.

 `Shared` is the value of that block. Each lock-held section of the driver is one function on it,
 and each method of `GlobalBlock` is the section itself, updating the fields in place.
 */
module DriverQueue {
  import opened Common

  const QUEUE_MAX: nat := 512

  type Port = nat
  type CallId = nat

  /** A queued notification: the callback that made it and the client port it was made for. */
  datatype Node = Node(owner: CallId, port: Port)

  datatype Shared = Shared(
    clientPort: Option<Port>,
    queue: seq<Node>,
    depth: int,
    maxDepth: int,
    reserved: int,
    sending: bool)

  const INITIAL := Shared(None, [], 0, 0, 0, false)

  /** RbfReserveQueueSlot. With `countQueued` the guard is the one the header describes
      (QueueDepth + Reserved); without it, the one the driver has. */
  function Reserve(g: Shared, countQueued: bool): (Shared, bool) {
    if (if countQueued then g.depth + g.reserved else g.reserved) < QUEUE_MAX
    then (g.(reserved := g.reserved + 1), true)
    else (g, false)
  }

  /** RbfReleaseQueueSlot. */
  function Release(g: Shared): Shared {
    if g.reserved > 0 then g.(reserved := g.reserved - 1) else g
  }

  /** The second locked section of RbfQueueNotify: insert only if the snapshot is still current. */
  function Insert(g: Shared, n: Node): (Shared, bool) {
    if g.clientPort != Some(n.port) then (g, false)
    else
      (g.(queue := g.queue + [n],
          reserved := Release(g).reserved,
          depth := g.depth + 1,
          maxDepth := if g.depth + 1 > g.maxDepth then g.depth + 1 else g.maxDepth), true)
  }

  /** The dequeue section of RbfSendThread; the sending flag goes up under the same lock. */
  function TakeForSend(g: Shared): (Shared, Option<Node>) {
    if g.queue == [] then (g, None)
    else (g.(queue := g.queue[1..], depth := g.depth - 1, sending := true), Some(g.queue[0]))
  }

  /** One round of RbfFlushQueue. */
  function TakeForFlush(g: Shared): (Shared, Option<Node>) {
    if g.queue == [] then (g, None)
    else (g.(queue := g.queue[1..], depth := g.depth - 1), Some(g.queue[0]))
  }

  /** One locked poll of RbfPortDisconnect: the drained nodes, or None while a send is running. */
  function PollDisconnect(g: Shared): (Shared, Option<seq<Node>>) {
    if g.sending then (g, None)
    else (g.(clientPort := None, queue := [], depth := g.depth - |g.queue|), Some(g.queue))
  }

  class GlobalBlock {
    var clientPort: Option<Port>
    var notifyQueue: seq<Node>
    var queueDepth: int
    var maxQueueDepth: int
    var reserved: int
    var sending: bool

    ghost function Value(): Shared
      reads this
    {
      Shared(clientPort, notifyQueue, queueDepth, maxQueueDepth, reserved, sending)
    }

    constructor ()
      ensures Value() == INITIAL
    {
      clientPort, notifyQueue, queueDepth, maxQueueDepth := None, [], 0, 0;
      reserved, sending := 0, false;
    }

    method ReserveQueueSlot() returns (ok: bool)
      modifies this
      ensures (Value(), ok) == Reserve(old(Value()), false)
    {
      ok := false;
      if reserved < QUEUE_MAX {
        reserved := reserved + 1;
        ok := true;
      }
    }

    method ReleaseQueueSlot()
      modifies this
      ensures Value() == Release(old(Value()))
    {
      if reserved > 0 {
        reserved := reserved - 1;
      }
    }

    method InsertNode(n: Node) returns (ok: bool)
      modifies this
      ensures (Value(), ok) == Insert(old(Value()), n)
    {
      if clientPort != Some(n.port) {
        return false;
      }
      notifyQueue := notifyQueue + [n];
      if reserved > 0 {
        reserved := reserved - 1;
      }
      queueDepth := queueDepth + 1;
      if queueDepth > maxQueueDepth {
        maxQueueDepth := queueDepth;
      }
      ok := true;
    }

    method DequeueForSend() returns (n: Option<Node>)
      modifies this
      ensures (Value(), n) == TakeForSend(old(Value()))
    {
      if notifyQueue == [] {
        return None;
      }
      n := Some(notifyQueue[0]);
      notifyQueue := notifyQueue[1..];
      queueDepth := queueDepth - 1;
      sending := true;
    }

    /** The drain runs node by node; its effect is the one-step `PollDisconnect`. */
    method DisconnectPoll() returns (drained: Option<seq<Node>>)
      modifies this
      ensures (Value(), drained) == PollDisconnect(old(Value()))
    {
      if sending {
        return None;
      }
      clientPort := None;
      var dead := [];
      while notifyQueue != []
        invariant dead + notifyQueue == old(notifyQueue)
        invariant queueDepth == old(queueDepth) - |dead|
        invariant clientPort == None && !sending
        invariant reserved == old(reserved) && maxQueueDepth == old(maxQueueDepth)
        decreases |notifyQueue|
      {
        dead := dead + [notifyQueue[0]];
        notifyQueue := notifyQueue[1..];
        queueDepth := queueDepth - 1;
      }
      assert dead == old(notifyQueue);
      drained := Some(dead);
    }

    /** RbfFlushQueue, whole: every node leaves, in queue order, and nothing else changes. */
    method FlushQueue() returns (freed: seq<Node>)
      modifies this
      ensures freed == old(notifyQueue)
      ensures Value() == old(Value()).(queue := [], depth := old(queueDepth) - |freed|)
    {
      freed := [];
      while notifyQueue != []
        invariant freed + notifyQueue == old(notifyQueue)
        invariant Value() == old(Value()).(queue := notifyQueue, depth := old(queueDepth) - |freed|)
        decreases |notifyQueue|
      {
        freed := freed + [notifyQueue[0]];
        notifyQueue := notifyQueue[1..];
        queueDepth := queueDepth - 1;
      }
    }
  }
}
