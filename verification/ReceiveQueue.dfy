/** The bounded queue of packets towards WireGuard. */
module ReceiveQueue {
  import opened Words

  const RX_QUEUE_LEN := 1024

  /**
   `queue` is the current channel and `retired` what is left in channels replaced
   by a later `Open`; their receive functions may still drain them.
   */
  datatype Bind<T> = Bind(hasChannel: bool, closed: bool, queue: seq<T>, retired: seq<T>)

  predicate Accepting<T>(b: Bind<T>) {
    b.hasChannel && !b.closed && |b.queue| < RX_QUEUE_LEN
  }

  function Enqueue<T>(b: Bind<T>, x: T): Bind<T> {
    if Accepting(b) then b.(queue := b.queue + [x]) else b
  }

  function Reopen<T>(b: Bind<T>): Bind<T> {
    if b.hasChannel && !b.closed then b else Bind(true, false, [], b.retired + b.queue)
  }

  /** The queue after delivering several packets. */
  function EnqueueAll<T>(b: Bind<T>, xs: seq<T>): Bind<T> {
    if xs == [] then b else Enqueue(EnqueueAll(b, xs[..|xs| - 1]), xs[|xs| - 1])
  }

  /**
   An open queue takes packets in order until it holds 1024 and refuses the rest; a
   closed one, or one that was never opened, takes nothing.
   */
  lemma {:induction false} QueueTakes<T>(b: Bind<T>, xs: seq<T>)
    requires |b.queue| <= 1024
    ensures var room := if b.hasChannel && !b.closed then 1024 - |b.queue| else 0;
            EnqueueAll(b, xs) == b.(queue := b.queue + if |xs| <= room then xs else xs[..room])
  {
    if xs == [] {
      assert b.queue + xs == b.queue;
      assert b.queue + xs[..0] == b.queue;
    } else {
      var init := xs[..|xs| - 1];
      QueueTakes(b, init);
      var room := if b.hasChannel && !b.closed then 1024 - |b.queue| else 0;
      if |init| < room {
        assert b.queue + init + [xs[|xs| - 1]] == b.queue + xs;
      } else {
        assert xs[..room] == init[..room];
        assert |init| == room ==> init[..room] == init;
      }
    }
  }

  class EngineBind<T(==)> {
    var hasChannel: bool
    var closed: bool
    var queue: seq<T>
    var retired: seq<T>
    /** Packets whose slab was handed back to the pool. */
    var released: seq<T>

    function State(): Bind<T>
      reads this
    {
      Bind(hasChannel, closed, queue, retired)
    }

    constructor ()
      ensures State() == Bind(false, false, [], []) && released == []
    {
      hasChannel, closed, queue, retired, released := false, false, [], [], [];
    }

    method Open() returns (ok: bool)
      modifies this
      ensures State() == Reopen(old(State())) && released == old(released)
      ensures ok == !(old(hasChannel) && !old(closed))
      ensures if ok then hasChannel && !closed && queue == [] && retired == old(retired) + old(queue)
              else State() == old(State())
    {
      if hasChannel && !closed {
        return false;
      }
      retired := retired + queue;
      queue, hasChannel, closed := [], true, false;
      ok := true;
    }

    method Close()
      modifies this
      ensures State() == old(State()).(closed := old(hasChannel) || old(closed)) && released == old(released)
    {
      if hasChannel && !closed {
        closed := true;
      }
    }

    /** Takes ownership of the packet: it is queued, or released when it cannot be. */
    method Deliver(x: T) returns (ok: bool)
      modifies this
      ensures State() == Enqueue(old(State()), x)
      ensures ok <==> old(hasChannel) && !old(closed) && |old(queue)| < 1024
      ensures queue == if ok then old(queue) + [x] else old(queue)
      ensures hasChannel == old(hasChannel) && closed == old(closed) && retired == old(retired)
      ensures released == if ok then old(released) else old(released) + [x]
    {
      if !hasChannel || closed {
        released := released + [x];
        return false;
      }
      if |queue| < RX_QUEUE_LEN {
        queue := queue + [x];
        return true;
      }
      released := released + [x];
      ok := false;
    }

    /** The receive function of the current channel; `None` means it would block or is closed. */
    method Receive() returns (x: Option<T>)
      modifies this
      ensures if old(queue) == [] then x == None && State() == old(State()) && released == old(released)
              else x == Some(old(queue)[0]) && State() == old(State()).(queue := old(queue)[1..])
                   && released == old(released) + [old(queue)[0]]
    {
      if queue == [] {
        return None;
      }
      x := Some(queue[0]);
      released := released + [queue[0]];
      queue := queue[1..];
    }
  }
}
