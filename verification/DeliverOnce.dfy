/** The replay window inside the protocol: how far apart a core appends one message twice. */
module DeliverOnce {
  import opened Framing
  import opened MessageCodec
  import opened AcceptanceStore
  import opened Protocol
  import opened Retry
  import W = ReplayWindow

  /** What still keeps a key from being appended again before `until`: its delivery is appended
      and not completed, or the window remembers it, or the time has come. */
  ghost predicate Guarded(core: Core, key: Bytes, until: int) {
    || Holding(core, key, until)
    || Remembering(core, key, until)
    || core.clock >= until
  }

  ghost predicate Holding(core: Core, key: Bytes, until: int) {
    && core.clock + core.replay.ttl >= until
    && exists x :: x in core.handlers && x.appended && DeliveryKey(x.message) == key
  }

  predicate Remembering(core: Core, key: Bytes, until: int) {
    && key in core.replay.entries
    && core.replay.entries[key].Committed? && core.replay.entries[key].expires >= until
  }

  /** The action drops this key from the core's window to make room. */
  ghost predicate Evicts(s: State, a: Action, c: Bytes, key: Bytes) {
    && a.DoComplete? && a.c == c && c in s.cores
    && W.EvictedBy(s.cores[c].replay, W.Finishes(DeliveryKey(a.h.message), true, s.cores[c].clock), key)
  }

  /** The core neither restarts nor drops the key. */
  ghost predicate Undisturbed(s: State, a: Action, c: Bytes, key: Bytes) {
    a != Action.DoRestart(c) && !Evicts(s, a, c, key)
  }

  ghost predicate AllUndisturbed(w: Wire, k: Crypto, honest: bool, s: State, run: seq<Action>, c: Bytes, key: Bytes)
    requires Possible(w, k, honest, s, run)
    decreases run
  {
    run == [] ||
    (Undisturbed(s, run[0], c, key) && AllUndisturbed(w, k, honest, Apply(w, k, honest, s, run[0]), run[1..], c, key))
  }

  // ------------------------------------------------------------- one window step

  /** An event on the window leaves a remembered key remembered, or comes after its time. */
  lemma StepRemembers(core: Core, e: W.Event, next: Core, key: Bytes, until: int)
    requires W.Inv(core.replay, core.clock) && Remembering(core, key, until) && e.now == core.clock
    requires !W.EvictedBy(core.replay, e, key)
    requires next.replay == W.Step(core.replay, e) && next.clock == core.clock
    ensures Guarded(next, key, until)
  {
    var expires := core.replay.entries[key].expires;
    if core.clock < expires {
      if e.Begins? {
        W.BeginKeepsCommitted(core.replay, e, core.clock, key, expires);
      } else {
        W.FinishKeepsCommitted(core.replay, e, core.clock, key, expires);
      }
    }
  }

  /** So does a begin for any key; what is being delivered stays. */
  lemma BeginGuards(core: Core, e: W.Event, next: Core, key: Bytes, until: int)
    requires W.Inv(core.replay, core.clock) && Guarded(core, key, until) && e.Begins? && e.now == core.clock
    requires next.replay == W.Step(core.replay, e) && next.clock == core.clock && core.handlers <= next.handlers
    ensures Guarded(next, key, until)
  {
    W.StepInv(core.replay, e, core.clock);
    if Remembering(core, key, until) {
      StepRemembers(core, e, next, key, until);
    } else if Holding(core, key, until) {
      var x :| x in core.handlers && x.appended && DeliveryKey(x.message) == key;
      assert x in next.handlers;
    }
  }

  lemma StepKeepsTtl(v: W.Window, e: W.Event)
    requires W.Wf(v)
    ensures W.Step(v, e).ttl == v.ttl
  {
  }

  /** Ending a delivery turns the one being delivered into one that is remembered. */
  lemma FinishGuards(k: Crypto, honest: bool, g: History, c: Bytes, core: Core, h: Handler, next: Core, key: Bytes,
                     until: int)
    requires W.Inv(core.replay, core.clock) && HandlersInv(k, honest, g, c, core) && h in core.handlers
    requires Guarded(core, key, until)
    requires var e := W.Finishes(DeliveryKey(h.message), h.appended, core.clock);
      !W.EvictedBy(core.replay, e, key) && next.replay == W.Step(core.replay, e)
    requires next.handlers == core.handlers - multiset{h} && next.clock == core.clock
    ensures Guarded(next, key, until)
  {
    var e := W.Finishes(DeliveryKey(h.message), h.appended, core.clock);
    if Remembering(core, key, until) {
      StepRemembers(core, e, next, key, until);
    } else if Holding(core, key, until) {
      var x :| x in core.handlers && x.appended && DeliveryKey(x.message) == key;
      if x == h {
        assert HandlerOk(k, honest, g, c, core, h);
        W.FinishCommits(core.replay, key, core.clock, core.clock);
      } else {
        StepKeepsTtl(core.replay, e);
        assert x in next.handlers;
      }
    }
  }

  /** Appending one message does not end the delivery of another. */
  lemma AppendGuards(core: Core, h: Handler, next: Core, key: Bytes, until: int)
    requires Guarded(core, key, until) && h in core.handlers && !h.appended
    requires next == core.(handlers := core.handlers - multiset{h} + multiset{h.(appended := true)})
    ensures Guarded(next, key, until)
  {
    if Holding(core, key, until) {
      var x :| x in core.handlers && x.appended && DeliveryKey(x.message) == key;
      assert x != h && x in next.handlers;
    }
  }

  /** While a key is guarded there is no delivery of it that is still to be appended. */
  lemma GuardBars(k: Crypto, honest: bool, g: History, c: Bytes, core: Core, h: Handler, until: int)
    requires HandlersInv(k, honest, g, c, core) && h in core.handlers && !h.appended
    requires Guarded(core, DeliveryKey(h.message), until)
    ensures core.clock >= until
  {
    assert HandlerOk(k, honest, g, c, core, h);
  }

  // ------------------------------------------------------------- every action

  /** The part of a core that guards keys. */
  ghost predicate SameGuards(core: Core, next: Core) {
    next.replay == core.replay && next.handlers == core.handlers && core.clock <= next.clock
  }

  lemma SameGuard(core: Core, next: Core, key: Bytes, until: int)
    requires SameGuards(core, next) && Guarded(core, key, until)
    ensures Guarded(next, key, until)
  {
    if Holding(core, key, until) {
      var x :| x in core.handlers && x.appended && DeliveryKey(x.message) == key;
      assert x in next.handlers;
    }
  }

  lemma SendAckCores(w: Wire, k: Crypto, s: State, core: Bytes, target: Bytes, ack: MessageAck)
    ensures SendAck(w, k, s, core, target, ack).cores == s.cores
  {
  }

  /** A begin for this message, and at most another delivery under way. */
  ghost predicate Begun(core: Core, next: Core, m: DirectMessage) {
    && next == core.(replay := W.Step(core.replay, W.Begins(DeliveryKey(m), core.clock)), handlers := next.handlers)
    && core.handlers <= next.handlers
  }

  lemma StartCores(w: Wire, k: Crypto, s: State, c: Bytes, source: Bytes, m: DirectMessage, d: Bytes)
    requires c in s.cores && d in s.cores
    ensures var t := StartDelivery(w, k, s, c, source, m);
      d in t.cores && if d == c then Begun(s.cores[c], t.cores[c], m) else t.cores[d] == s.cores[d]
  {
    var e := W.Begins(DeliveryKey(m), s.cores[c].clock);
    var core := s.cores[c].(replay := W.Step(s.cores[c].replay, e));
    match W.Begin(s.cores[c].replay, DeliveryKey(m), s.cores[c].clock).1
    case Duplicate => SendAckCores(w, k, WithCore(s, c, core), c, source, DirectAck(m, ACK_OK, [], 0));
    case InProgress =>
      SendAckCores(w, k, WithCore(s, c, core), c, source,
                   DirectAck(m, ACK_RETRYABLE, Ascii("DIRECT_DELIVERY_IN_PROGRESS"), 100));
    case Granted =>
  }

  lemma HandleCores(w: Wire, k: Crypto, s: State, c: Bytes, source: Bytes, m: DirectMessage, d: Bytes)
    requires c in s.cores && d in s.cores
    ensures var t := HandleDirect(w, k, s, c, source, m);
      d in t.cores && (t.cores[d] == s.cores[d] || (d == c && Begun(s.cores[d], t.cores[d], m)))
  {
    if !k.accountSigned(m) || source == [] || CoreFor(s.cores[c].bindings, m.sender) != Some(source) {
      assert HandleDirect(w, k, s, c, source, m) == s;
    } else if CoreFor(s.cores[c].bindings, m.recipient) != Some(c) {
      SendAckCores(w, k, s, c, source, DirectAck(m, ACK_RETRYABLE, Ascii("RECIPIENT_MOVED"), 0));
    } else {
      assert HandleDirect(w, k, s, c, source, m) == StartDelivery(w, k, s, c, source, m);
      StartCores(w, k, s, c, source, m, d);
    }
  }

  lemma ReceiveGuards(w: Wire, k: Crypto, honest: bool, s: State, p: Packet, c: Bytes, key: Bytes, until: int)
    requires p.target in s.cores && c in s.cores && W.Inv(s.cores[c].replay, s.cores[c].clock)
    requires Guarded(s.cores[c], key, until)
    ensures c in ReceiveDirect(w, k, s, p).cores && Guarded(ReceiveDirect(w, k, s, p).cores[c], key, until)
  {
    match w.directOf(p.data)
    case None =>
    case Some((source, m)) =>
      var taken := s.(net := s.net - multiset{p});
      HandleCores(w, k, taken, p.target, source, m, c);
      var next := HandleDirect(w, k, taken, p.target, source, m).cores[c];
      if next != s.cores[c] {
        BeginGuards(s.cores[c], W.Begins(DeliveryKey(m), s.cores[c].clock), next, key, until);
      }
  }

  /** The delivery is over, with or without an append. */
  ghost predicate Ended(core: Core, next: Core, h: Handler) {
    next == core.(replay := W.Step(core.replay, W.Finishes(DeliveryKey(h.message), h.appended, core.clock)),
                  handlers := core.handlers - multiset{h})
  }

  lemma AbandonCores(w: Wire, k: Crypto, s: State, c: Bytes, h: Handler, code: Bytes, ms: u64, d: Bytes)
    requires c in s.cores && d in s.cores && !h.appended
    ensures var t := Abandon(w, k, s, c, h, code, ms);
      d in t.cores && if d == c then Ended(s.cores[c], t.cores[c], h) else t.cores[d] == s.cores[d]
  {
  }

  lemma CompleteCores(w: Wire, k: Crypto, s: State, c: Bytes, h: Handler, d: Bytes)
    requires c in s.cores && d in s.cores && h.appended
    ensures var t := Complete(w, k, s, c, h);
      d in t.cores && if d == c then Ended(s.cores[c], t.cores[c], h) else t.cores[d] == s.cores[d]
  {
  }

  lemma SubmitCores(w: Wire, k: Crypto, s: State, c: Bytes, m: DirectMessage, d: Bytes)
    requires c in s.cores && d in s.cores
    ensures d in Submit(w, k, s, c, m).cores && SameGuards(s.cores[d], Submit(w, k, s, c, m).cores[d])
  {
  }

  lemma RetryCores(w: Wire, s: State, c: Bytes, job: Accepted, d: Bytes)
    requires c in s.cores && d in s.cores
    ensures d in RetryJob(w, s, c, job).cores && SameGuards(s.cores[d], RetryJob(w, s, c, job).cores[d])
  {
  }

  lemma AckCores(w: Wire, k: Crypto, s: State, p: Packet, d: Bytes)
    requires p.target in s.cores && d in s.cores
    ensures d in ReceiveAck(w, k, s, p).cores && SameGuards(s.cores[d], ReceiveAck(w, k, s, p).cores[d])
  {
  }

  /** Every other action leaves window and deliveries alone. */
  lemma OtherCores(w: Wire, k: Crypto, honest: bool, s: State, a: Action, d: Bytes)
    requires Enabled(w, k, honest, s, a) && d in s.cores && a != Action.DoRestart(d)
    requires !a.DoReceiveDirect? && !a.DoAbandon? && !a.DoComplete? && !a.DoAppend?
    ensures d in Apply(w, k, honest, s, a).cores && SameGuards(s.cores[d], Apply(w, k, honest, s, a).cores[d])
  {
    match a
    case DoSubmit(c, m) => SubmitCores(w, k, s, c, m, d);
    case DoRetry(c, job) => RetryCores(w, s, c, job, d);
    case DoReceiveAck(p) => AckCores(w, k, s, p, d);
    case _ =>
  }

  lemma EndGuards(w: Wire, k: Crypto, honest: bool, s: State, a: Action, c: Bytes, key: Bytes, until: int)
    requires Enabled(w, k, honest, s, a) && c in s.cores && (a.DoAbandon? || a.DoComplete?)
    requires W.Inv(s.cores[c].replay, s.cores[c].clock) && HandlersInv(k, honest, s.history, c, s.cores[c])
    requires Guarded(s.cores[c], key, until) && Undisturbed(s, a, c, key)
    ensures c in Apply(w, k, honest, s, a).cores && Guarded(Apply(w, k, honest, s, a).cores[c], key, until)
  {
    match a {
      case DoAbandon(d, h, code, ms) => AbandonCores(w, k, s, d, h, code, ms, c);
      case DoComplete(d, h) => CompleteCores(w, k, s, d, h, c);
    }
    if a.c == c {
      FinishGuards(k, honest, s.history, c, s.cores[c], a.h, Apply(w, k, honest, s, a).cores[c], key, until);
    }
  }

  lemma OtherGuards(w: Wire, k: Crypto, honest: bool, s: State, a: Action, c: Bytes, key: Bytes, until: int)
    requires Enabled(w, k, honest, s, a) && c in s.cores && a != Action.DoRestart(c)
    requires !a.DoReceiveDirect? && !a.DoAbandon? && !a.DoComplete? && Guarded(s.cores[c], key, until)
    ensures c in Apply(w, k, honest, s, a).cores && Guarded(Apply(w, k, honest, s, a).cores[c], key, until)
  {
    if a.DoAppend? {
      if a.c == c { AppendGuards(s.cores[c], a.h, Append(s, c, a.h).cores[c], key, until); }
    } else {
      OtherCores(w, k, honest, s, a, c);
      SameGuard(s.cores[c], Apply(w, k, honest, s, a).cores[c], key, until);
    }
  }

  /** No action ends the guard before its time, except a restart of the core and an eviction. */
  lemma StepGuards(w: Wire, k: Crypto, honest: bool, s: State, a: Action, c: Bytes, key: Bytes, until: int)
    requires Enabled(w, k, honest, s, a) && c in s.cores
    requires W.Inv(s.cores[c].replay, s.cores[c].clock) && HandlersInv(k, honest, s.history, c, s.cores[c])
    requires Guarded(s.cores[c], key, until) && Undisturbed(s, a, c, key)
    ensures c in Apply(w, k, honest, s, a).cores && Guarded(Apply(w, k, honest, s, a).cores[c], key, until)
  {
    if a.DoReceiveDirect? {
      ReceiveGuards(w, k, honest, s, a.p, c, key, until);
    } else if a.DoAbandon? || a.DoComplete? {
      EndGuards(w, k, honest, s, a, c, key, until);
    } else {
      OtherGuards(w, k, honest, s, a, c, key, until);
    }
  }

  lemma {:induction false} RunGuards(w: Wire, k: Crypto, honest: bool, s: State, run: seq<Action>, c: Bytes, key: Bytes,
                                     until: int)
    requires WireOk(w) && Inv(w, k, honest, s) && Possible(w, k, honest, s, run)
    requires AllUndisturbed(w, k, honest, s, run, c, key) && c in s.cores && Guarded(s.cores[c], key, until)
    ensures c in After(w, k, honest, s, run).cores && Guarded(After(w, k, honest, s, run).cores[c], key, until)
    decreases run
  {
    if run != [] {
      StepInv(w, k, honest, s, run[0]);
      assert CoreInv(w, k, honest, s.history, c, s.cores[c]);
      StepGuards(w, k, honest, s, run[0], c, key, until);
      RunGuards(w, k, honest, Apply(w, k, honest, s, run[0]), run[1..], c, key, until);
    }
  }

  lemma AppendHolds(s: State, c: Bytes, h: Handler)
    requires c in s.cores
    ensures Holding(Append(s, c, h).cores[c], DeliveryKey(h.message), s.cores[c].clock + s.cores[c].replay.ttl)
  {
    assert h.(appended := true) in Append(s, c, h).cores[c].handlers;
  }

  lemma ApartFrom(w: Wire, k: Crypto, honest: bool, s: State, c: Bytes, between: seq<Action>, again: Handler,
                  until: int)
    requires WireOk(w) && Inv(w, k, honest, s) && c in s.cores && Possible(w, k, honest, s, between)
    requires AllUndisturbed(w, k, honest, s, between, c, DeliveryKey(again.message))
    requires Guarded(s.cores[c], DeliveryKey(again.message), until)
    requires Enabled(w, k, honest, After(w, k, honest, s, between), DoAppend(c, again))
    ensures After(w, k, honest, s, between).cores[c].clock >= until
  {
    RunGuards(w, k, honest, s, between, c, DeliveryKey(again.message), until);
    RunInv(w, k, honest, s, between);
    var t := After(w, k, honest, s, between);
    assert CoreInv(w, k, honest, t.history, c, t.cores[c]);
    GuardBars(k, honest, t.history, c, t.cores[c], again, until);
  }

  /** Two appends of one key on one core, with what happens in between. */
  ghost predicate TwoAppends(w: Wire, k: Crypto, honest: bool, s: State, c: Bytes, h: Handler, between: seq<Action>,
                             again: Handler)
  {
    && Enabled(w, k, honest, s, DoAppend(c, h)) && DeliveryKey(again.message) == DeliveryKey(h.message)
    && var s1 := Apply(w, k, honest, s, DoAppend(c, h));
       && Possible(w, k, honest, s1, between)
       && Enabled(w, k, honest, After(w, k, honest, s1, between), DoAppend(c, again))
  }

  /** Delivered once: in every run, two appends of one key on a core that neither restarts nor
      drops the key for capacity in between lie at least the lifetime of the window apart. */
  lemma AppendsApart(w: Wire, k: Crypto, honest: bool, start: State, before: seq<Action>, c: Bytes, h: Handler,
                     between: seq<Action>, again: Handler)
    requires WireOk(w) && Init(start) && Possible(w, k, honest, start, before)
    requires TwoAppends(w, k, honest, After(w, k, honest, start, before), c, h, between, again)
    requires AllUndisturbed(w, k, honest, Append(After(w, k, honest, start, before), c, h), between, c,
                            DeliveryKey(h.message))
    ensures var s := After(w, k, honest, start, before);
      var t := After(w, k, honest, Append(s, c, h), between);
      t.cores[c].clock - s.cores[c].clock >= s.cores[c].replay.ttl
  {
    var s := After(w, k, honest, start, before);
    InitInv(w, k, honest, start);
    RunInv(w, k, honest, start, before);
    StepInv(w, k, honest, s, DoAppend(c, h));
    AppendHolds(s, c, h);
    ApartFrom(w, k, honest, Append(s, c, h), c, between, again, s.cores[c].clock + s.cores[c].replay.ttl);
  }

  /** A restart does end it: the new window lets any key be delivered again at once. */
  lemma RestartForgets(s: State, c: Bytes, m: DirectMessage, now: int)
    requires c in s.cores
    ensures W.Begin(Restart(s, c).cores[c].replay, DeliveryKey(m), now).1 == W.Granted
  {
  }
}
