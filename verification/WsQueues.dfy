/** The two queues a websocket notification passes: an unbounded queue between channels, and
    each client's queue, which has one message on its way at a time. */
module WsQueues {
  import opened Framing

  // ------------------------------------------------------- between channels

  /** The handler's variables. `dequeue` and `skip` tell which of its two sends are open; `next`
      is what the first of them would send. */
  datatype Queue<T> = Queue(q: seq<T>, next: Option<T>, dequeue: bool, skip: bool)

  /** An item arrives, and the reader is ready for it or not; or the reader takes one. */
  datatype Event<T> = Arrive(item: T, ready: bool) | Take

  function Empty<T>(): Queue<T> {
    Queue([], None, false, true)
  }

  predicate Enabled<T>(s: Queue<T>, e: Event<T>) {
    e.Take? ==> s.dequeue && s.next.Some? && s.q != []
  }

  /** One turn of the handler, and what it sends on. */
  function Step<T>(s: Queue<T>, e: Event<T>): (Queue<T>, seq<T>)
    requires Enabled(s, e)
  {
    match e
    case Arrive(item, ready) =>
      if s.skip && ready then (s, [item])
      else
        var q := s.q + [item];
        (Queue(q, Some(q[0]), true, false), [])
    case Take =>
      var q := s.q[1..];
      (if q == [] then Queue(q, s.next, false, true) else Queue(q, Some(q[0]), true, false), [s.next.value])
  }

  /** A send is open exactly if there is something to send, an item may skip the queue exactly
      if there is nothing ahead of it, and the oldest item is next. */
  ghost predicate QueueOk<T>(s: Queue<T>) {
    && (s.dequeue <==> s.q != []) && (s.skip <==> s.q == [])
    && (s.q != [] ==> s.next == Some(s.q[0]))
  }

  ghost predicate Possible<T>(s: Queue<T>, events: seq<Event<T>>)
    decreases events
  {
    events == [] || (Enabled(s, events[0]) && Possible(Step(s, events[0]).0, events[1..]))
  }

  function Arrivals<T>(events: seq<Event<T>>): seq<T> {
    if events == [] then [] else (if events[0].Arrive? then [events[0].item] else []) + Arrivals(events[1..])
  }

  ghost function Run<T>(s: Queue<T>, events: seq<Event<T>>): (Queue<T>, seq<T>)
    requires Possible(s, events)
    decreases events
  {
    if events == [] then (s, [])
    else
      var (s', out) := Step(s, events[0]);
      var (end, rest) := Run(s', events[1..]);
      (end, out + rest)
  }

  lemma StepFifo<T>(s: Queue<T>, e: Event<T>)
    requires QueueOk(s) && Enabled(s, e)
    ensures QueueOk(Step(s, e).0)
    ensures Step(s, e).1 + Step(s, e).0.q == s.q + if e.Arrive? then [e.item] else []
  {
  }

  /** Two first-in-first-out turns make one. */
  lemma Rejoin<T>(start: seq<T>, in1: seq<T>, in2: seq<T>, out1: seq<T>, mid: seq<T>, out2: seq<T>, end: seq<T>)
    requires out1 + mid == start + in1 && out2 + end == mid + in2
    ensures (out1 + out2) + end == start + (in1 + in2)
  {
    assert (out1 + out2) + end == out1 + (out2 + end);
    assert out1 + (mid + in2) == (out1 + mid) + in2;
    assert (start + in1) + in2 == start + (in1 + in2);
  }

  /** Whatever the timing of the two sides: what has been sent, then what is queued, is what was
      queued before, then what has arrived: nothing lost, doubled or reordered. */
  lemma {:induction false} RunFifo<T>(s: Queue<T>, events: seq<Event<T>>)
    requires QueueOk(s) && Possible(s, events)
    ensures QueueOk(Run(s, events).0)
    ensures Run(s, events).1 + Run(s, events).0.q == s.q + Arrivals(events)
    decreases events
  {
    if events != [] {
      StepFifo(s, events[0]);
      var (s', out) := Step(s, events[0]);
      var (end, rest) := Run(s', events[1..]);
      RunFifo(s', events[1..]);
      Rejoin(s.q, if events[0].Arrive? then [events[0].item] else [], Arrivals(events[1..]), out, s'.q, rest, end.q);
    } else {
      assert [] + s.q == s.q + [];
    }
  }

  /** A reader that keeps taking gets everything that is queued, in order. */
  lemma {:induction false} DrainsAll<T>(s: Queue<T>, events: seq<Event<T>>)
    requires QueueOk(s) && |events| == |s.q| && forall i :: 0 <= i < |events| ==> events[i] == Take
    ensures Possible(s, events) && Run(s, events) == (Run(s, events).0, s.q) && Run(s, events).0.q == []
    decreases events
  {
    if events != [] {
      StepFifo(s, events[0]);
      DrainsAll(Step(s, events[0]).0, events[1..]);
      assert s.q == [s.q[0]] + s.q[1..];
    }
  }

  class QueueHandler<T> {
    var q: seq<T>
    var next: Option<T>
    var dequeue: bool
    var skip: bool

    constructor ()
      ensures View() == Empty()
    {
      q, next, dequeue, skip := [], None, false, true;
    }

    function View(): Queue<T>
      reads this
    {
      Queue(q, next, dequeue, skip)
    }

    method Receive(item: T, ready: bool) returns (sent: seq<T>)
      modifies this
      ensures (View(), sent) == Step(old(View()), Arrive(item, ready))
    {
      if skip && ready { return [item]; }
      q := q + [item];
      dequeue, skip := true, false;
      next := Some(q[0]);
      return [];
    }

    /** The reader takes `next`; the rest moves up by one. */
    method Dequeue() returns (sent: seq<T>)
      requires Enabled(View(), Take)
      modifies this
      ensures (View(), sent) == Step(old(View()), Take)
    {
      sent := [next.value];
      q := q[1..];
      if |q| == 0 {
        dequeue, skip := false, true;
      } else {
        next := Some(q[0]);
        dequeue, skip := true, false;
      }
    }
  }

  // ------------------------------------------------------------- one client

  /** `outstanding` counts messages handed to the writer that it has not reported sent. */
  datatype Outbox<T> = Outbox(pending: seq<T>, waiting: bool, outstanding: nat)

  datatype Notice<T> = Notify(item: T) | Sent

  predicate Due<T>(s: Outbox<T>, e: Notice<T>) {
    e.Sent? ==> s.outstanding > 0
  }

  function Turn<T>(s: Outbox<T>, e: Notice<T>): (Outbox<T>, seq<T>)
    requires Due(s, e)
  {
    match e
    case Notify(item) =>
      if !s.waiting then (Outbox(s.pending, true, s.outstanding + 1), [item])
      else (Outbox(s.pending + [item], true, s.outstanding), [])
    case Sent =>
      if s.pending == [] then (Outbox([], false, s.outstanding - 1), [])
      else (Outbox(s.pending[1..], s.waiting, s.outstanding), [s.pending[0]])
  }

  /** One message on its way while waiting and none otherwise, and nothing pends without one. */
  ghost predicate OutboxOk<T>(s: Outbox<T>) {
    s.outstanding == (if s.waiting then 1 else 0) && (s.pending != [] ==> s.waiting)
  }

  ghost predicate Feasible<T>(s: Outbox<T>, events: seq<Notice<T>>)
    decreases events
  {
    events == [] || (Due(s, events[0]) && Feasible(Turn(s, events[0]).0, events[1..]))
  }

  function Notified<T>(events: seq<Notice<T>>): seq<T> {
    if events == [] then [] else (if events[0].Notify? then [events[0].item] else []) + Notified(events[1..])
  }

  ghost function Turns<T>(s: Outbox<T>, events: seq<Notice<T>>): (Outbox<T>, seq<T>)
    requires Feasible(s, events)
    decreases events
  {
    if events == [] then (s, [])
    else
      var (s', out) := Turn(s, events[0]);
      var (end, rest) := Turns(s', events[1..]);
      (end, out + rest)
  }

  lemma TurnFifo<T>(s: Outbox<T>, e: Notice<T>)
    requires OutboxOk(s) && Due(s, e)
    ensures OutboxOk(Turn(s, e).0)
    ensures Turn(s, e).1 + Turn(s, e).0.pending == s.pending + if e.Notify? then [e.item] else []
  {
  }

  /** Over any run: at most one message is on its way, and what was handed to the writer, then
      what pends, is what pended before, then what was queued, in order. */
  lemma {:induction false} TurnsFifo<T>(s: Outbox<T>, events: seq<Notice<T>>)
    requires OutboxOk(s) && Feasible(s, events)
    ensures OutboxOk(Turns(s, events).0) && Turns(s, events).0.outstanding <= 1
    ensures Turns(s, events).1 + Turns(s, events).0.pending == s.pending + Notified(events)
    decreases events
  {
    if events != [] {
      TurnFifo(s, events[0]);
      var (s', out) := Turn(s, events[0]);
      var (end, rest) := Turns(s', events[1..]);
      TurnsFifo(s', events[1..]);
      Rejoin(s.pending, if events[0].Notify? then [events[0].item] else [], Notified(events[1..]), out, s'.pending,
             rest, end.pending);
    } else {
      assert [] + s.pending == s.pending + [];
    }
  }

  class ClientQueue<T> {
    var pending: seq<T>
    var waiting: bool
    ghost var outstanding: nat

    constructor ()
      ensures View() == Outbox([], false, 0)
    {
      pending, waiting, outstanding := [], false, 0;
    }

    ghost function View(): Outbox<T>
      reads this
    {
      Outbox(pending, waiting, outstanding)
    }

    method OnNotification(item: T) returns (handed: seq<T>)
      modifies this
      ensures (View(), handed) == Turn(old(View()), Notify(item))
    {
      if !waiting {
        handed := [item];
        outstanding := outstanding + 1;
      } else {
        handed := [];
        pending := pending + [item];
      }
      waiting := true;
    }

    method OnSent() returns (handed: seq<T>)
      requires Due(View(), Sent)
      modifies this
      ensures (View(), handed) == Turn(old(View()), Sent)
    {
      if |pending| == 0 {
        waiting := false;
        outstanding := outstanding - 1;
        return [];
      }
      handed := [pending[0]];
      pending := pending[1..];
    }
  }
}
