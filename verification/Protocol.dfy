/** The Direct-message protocol as a transition system: sender cores that accept, route,
    retry and close jobs; recipient cores that reserve, append, commit and acknowledge; a
    network that loses, duplicates, reorders and injects packets; accounts that move; cores
    that restart. Delivery facts are stated on the key (recipient, sender, message id), the
    key of the replay window. */
module Protocol {
  import opened Framing
  import opened MessageCodec
  import opened AcceptanceStore
  import opened Retry
  import W = ReplayWindow

  // -------------------------------------------------- what the cores rely on

  /** How messages travel. The fields are the codec; the protocol relies only on `WireOk`. */
  datatype Wire = Wire(
    putDirect: (Bytes, DirectMessage) -> Option<Bytes>,
    putAck: (Bytes, MessageAck) -> Option<Bytes>,
    directOf: Bytes -> Option<(Bytes, DirectMessage)>,
    ackOf: Bytes -> Option<(Bytes, MessageAck)>,
    destination: Bytes -> Result<Option<Bytes>>,
    ackPayload: (Bytes, Bytes, MessageAck) -> Option<Bytes>)

  /** Signatures and digests. Nothing is assumed about them here; unforgeability is the
      condition on injected packets below. */
  datatype Crypto = Crypto(
    accountSigned: DirectMessage -> bool,
    coreSigned: (Bytes, Bytes, Bytes) -> bool,
    sign: (Bytes, Bytes) -> Bytes,
    digest: Bytes -> Bytes)

  ghost predicate WireOk(w: Wire) {
    && (forall c, m :: w.putDirect(c, m).Some? ==> w.directOf(w.putDirect(c, m).value) == Some((c, m)))
    && (forall c, a :: w.putAck(c, a).Some? ==>
          w.ackOf(w.putAck(c, a).value) == Some((c, a)) && w.directOf(w.putAck(c, a).value) == None)
    && (forall d :: w.directOf(d).Some? ==> w.ackOf(d) == None && ValidAccount(w.directOf(d).value.1.sender))
    && (forall d :: w.ackOf(d).Some? ==> ValidAccount(w.ackOf(d).value.1.sender))
    && PayloadOk(w)
  }

  /** The signed payload fixes both cores and every field of the ack but its signature. */
  ghost predicate PayloadOk(w: Wire) {
    && (forall s1, t1, a1, s2, t2, a2 ::
         w.ackPayload(s1, t1, a1).Some? && w.ackPayload(s1, t1, a1) == w.ackPayload(s2, t2, a2) ==>
          s1 == s2 && t1 == t2 && SameButSignature(a1, a2))
    && (forall s, t, a1, a2 :: SameButSignature(a1, a2) ==> w.ackPayload(s, t, a1) == w.ackPayload(s, t, a2))
  }

  predicate SameButSignature(a: MessageAck, b: MessageAck) {
    a == b.(signature := a.signature)
  }

  // ------------------------------------------------------------------- state

  type Window = w: W.Window | W.Wf(w) witness W.New(1, 1)

  /** A delivery between the reservation of its key and the end of its mailbox append. */
  datatype Handler = Handler(source: Bytes, message: DirectMessage, appended: bool)

  datatype Core = Core(
    store: Store,                 // durable
    listed: set<Accepted>,        // jobs a retry pass has listed and not yet tried
    replay: Window,
    handlers: multiset<Handler>,
    bindings: Bindings,           // what its own indexer says
    clock: int)                   // its own clock

  datatype Packet = Packet(target: Bytes, data: Bytes)

  datatype SignedAck = SignedAck(core: Bytes, target: Bytes, ack: MessageAck)

  /** What has happened so far: successful mailbox appends by core and key, fresh
      acceptances by core, and acks signed. */
  datatype History = History(
    mailbox: set<(Bytes, Bytes)>,
    accepted: set<(Bytes, DirectMessage)>,
    signed: set<SignedAck>)

  datatype State = State(
    cores: map<Bytes, Core>,
    net: multiset<Packet>,
    history: History)

  /** The replay key of a message: recipient, sender and message id. */
  function DeliveryKey(m: DirectMessage): Bytes {
    m.recipient + [0] + m.sender + [0] + m.messageId
  }

  /** Valid accounts and ids never contain the separator, so the key determines all three. */
  lemma DeliveryKeyInjective(a: DirectMessage, b: DirectMessage)
    requires DirectOk(a) && DirectOk(b) && DeliveryKey(a) == DeliveryKey(b)
    ensures a.recipient == b.recipient && a.sender == b.sender && a.messageId == b.messageId
  {
    var x, y := DeliveryKey(a), DeliveryKey(b);
    assert x[..64] == a.recipient && y[..64] == b.recipient;
    assert x[65..129] == a.sender && y[65..129] == b.sender;
    assert x[130..] == a.messageId && y[130..] == b.messageId;
  }

  // -------------------------------------------------------------- operations

  function Post(net: multiset<Packet>, target: Bytes, data: Bytes): multiset<Packet> {
    net + multiset{Packet(target, data)}
  }

  /** Sign an ack for `target` and put it on the network; without a target, or when the
      signer or the encoder fails, nothing is sent. */
  function SendAck(w: Wire, k: Crypto, s: State, core: Bytes, target: Bytes, ack: MessageAck): State {
    match w.ackPayload(core, target, ack)
    case None => s
    case Some(payload) =>
      var signature := k.sign(core, payload);
      var signed := s.(history := s.history.(signed := s.history.signed + {SignedAck(core, target, ack)}));
      if target == [] || signature == [] then s
      else
        match w.putAck(core, ack.(signature := signature))
        case None => signed
        case Some(data) => signed.(net := Post(signed.net, target, data))
  }

  function DirectAck(m: DirectMessage, status: byte, code: Bytes, retryAfterMs: u64): MessageAck {
    MessageAck(DIRECT, m.sender, m.senderMsgId, m.messageId, status, code, [], retryAfterMs, [])
  }

  function WithCore(s: State, c: Bytes, core: Core): State {
    s.(cores := s.cores[c := core])
  }

  /** The wallet submits a message to its core. */
  ghost function Submit(w: Wire, k: Crypto, s: State, c: Bytes, m: DirectMessage): State
    requires c in s.cores
  {
    var target := CoreFor(s.cores[c].bindings, m.recipient);
    var data := w.putDirect(c, m);
    if !k.accountSigned(m) || CoreFor(s.cores[c].bindings, m.sender) != Some(c) || target.None? || data.None? then s
    else
      var r := Accept(s.cores[c].store,
                      Request(m.sender, m.senderMsgId, m.messageId, k.digest(data.value), target.value, data.value,
                        NoCharge));
      if r.outcome.Refused? then s
      else
        var stored := WithCore(s, c, s.cores[c].(store := r.store));
        var noted := if r.Fresh() then stored.(history := s.history.(accepted := s.history.accepted + {(c, m)}))
          else stored;
        var job := r.outcome.record;
        if r.outcome.duplicate && job.final then noted else noted.(net := Post(s.net, job.target, job.data))
  }

  /** A retry pass lists the unfinished jobs. */
  ghost function ListJobs(s: State, c: Bytes): State
    requires c in s.cores
  {
    WithCore(s, c, s.cores[c].(listed := PendingSet(s.cores[c].store)))
  }

  /** It then takes the listed jobs one by one; the store may have changed meanwhile. */
  ghost function RetryJob(w: Wire, s: State, c: Bytes, job: Accepted): State
    requires c in s.cores
  {
    var core := s.cores[c];
    var r := Refresh(w.destination, core.bindings, core.store, job);
    var next := WithCore(s, c, core.(store := r.store, listed := core.listed - {job}));
    match r.outcome
    case Err(_) => next
    case Ok(refreshed) => next.(net := Post(s.net, refreshed.target, refreshed.data))
  }

  ghost function PruneJobs(s: State, c: Bytes): State
    requires c in s.cores
  {
    WithCore(s, c, s.cores[c].(store := Prune(s.cores[c].store, s.cores[c].clock)))
  }

  /** Ask the window: already delivered, being delivered, or go ahead. */
  ghost function StartDelivery(w: Wire, k: Crypto, s: State, c: Bytes, source: Bytes, m: DirectMessage): State
    requires c in s.cores
  {
    var e := W.Begins(DeliveryKey(m), s.cores[c].clock);
    var core := s.cores[c].(replay := W.Step(s.cores[c].replay, e));
    match W.Begin(s.cores[c].replay, DeliveryKey(m), s.cores[c].clock).1
    case Duplicate => SendAck(w, k, WithCore(s, c, core), c, source, DirectAck(m, ACK_OK, [], 0))
    case InProgress =>
      SendAck(w, k, WithCore(s, c, core), c, source,
              DirectAck(m, ACK_RETRYABLE, Ascii("DIRECT_DELIVERY_IN_PROGRESS"), 100))
    case Granted => WithCore(s, c, core.(handlers := core.handlers + multiset{Handler(source, m, false)}))
  }

  /** A packet with a Direct message reaches its target core. */
  ghost function ReceiveDirect(w: Wire, k: Crypto, s: State, p: Packet): State
    requires p.target in s.cores
  {
    var c := p.target;
    var taken := s.(net := s.net - multiset{p});
    match w.directOf(p.data)
    case None => taken
    case Some((source, m)) => HandleDirect(w, k, taken, c, source, m)
  }

  ghost function HandleDirect(w: Wire, k: Crypto, s: State, c: Bytes, source: Bytes, m: DirectMessage): State
    requires c in s.cores
  {
    if !k.accountSigned(m) || source == [] || CoreFor(s.cores[c].bindings, m.sender) != Some(source) then s
    else if CoreFor(s.cores[c].bindings, m.recipient) != Some(c) then
      SendAck(w, k, s, c, source, DirectAck(m, ACK_RETRYABLE, Ascii("RECIPIENT_MOVED"), 0))
    else
      StartDelivery(w, k, s, c, source, m)
  }

  /** The limiter refuses the delivery, or the mailbox write fails: the key is released. */
  ghost function Abandon(w: Wire, k: Crypto, s: State, c: Bytes, h: Handler, code: Bytes, retryAfterMs: u64): State
    requires c in s.cores
  {
    var core := s.cores[c];
    var replay := W.Step(core.replay, W.Finishes(DeliveryKey(h.message), false, s.cores[c].clock));
    SendAck(w, k, WithCore(s, c, core.(replay := replay, handlers := core.handlers - multiset{h})), c, h.source,
            DirectAck(h.message, ACK_RETRYABLE, code, retryAfterMs))
  }

  /** The mailbox write succeeds. */
  ghost function Append(s: State, c: Bytes, h: Handler): State
    requires c in s.cores
  {
    var core := s.cores[c];
    var done := h.(appended := true);
    WithCore(s, c, core.(handlers := core.handlers - multiset{h} + multiset{done}))
      .(history := s.history.(mailbox := s.history.mailbox + {(c, DeliveryKey(h.message))}))
  }

  /** After the write the key is committed and the sender told. */
  ghost function Complete(w: Wire, k: Crypto, s: State, c: Bytes, h: Handler): State
    requires c in s.cores
  {
    var core := s.cores[c];
    var replay := W.Step(core.replay, W.Finishes(DeliveryKey(h.message), true, s.cores[c].clock));
    SendAck(w, k, WithCore(s, c, core.(replay := replay, handlers := core.handlers - multiset{h})), c, h.source,
            DirectAck(h.message, ACK_OK, [], 0))
  }

  predicate AckVerified(w: Wire, k: Crypto, source: Bytes, target: Bytes, ack: MessageAck) {
    match w.ackPayload(source, target, ack)
    case None => false
    case Some(payload) => ack.signature != [] && k.coreSigned(source, payload, ack.signature)
  }

  /** A packet with an ack reaches its target core. */
  ghost function ReceiveAck(w: Wire, k: Crypto, s: State, p: Packet): State
    requires p.target in s.cores
  {
    var c := p.target;
    var taken := s.(net := s.net - multiset{p});
    match w.ackOf(p.data)
    case None => taken
    case Some((source, ack)) =>
      if !AckVerified(w, k, source, c, ack) || ack.original == TOPIC_FANOUT || ack.original == TOPIC_KEY_FANOUT then
        taken
      else
        var r := MarkAck(s.cores[c].store, ack.sender, ack.messageId, ack.senderMsgId, source, ack.status);
        WithCore(taken, c, s.cores[c].(store := r.store))
  }

  /** A core restarts: its jobs are durable, its window, handlers and passes are not. */
  ghost function Restart(s: State, c: Bytes): State
    requires c in s.cores
  {
    var core := s.cores[c];
    WithCore(s, c, Core(core.store, {}, W.New(core.replay.max, core.replay.ttl), multiset{}, core.bindings, core.clock))
  }

  datatype Action =
    | DoSubmit(c: Bytes, m: DirectMessage)
    | DoList(c: Bytes)
    | DoRetry(c: Bytes, job: Accepted)
    | DoPrune(c: Bytes)
    | DoReceiveDirect(p: Packet)
    | DoAbandon(c: Bytes, h: Handler, code: Bytes, retryAfterMs: u64)
    | DoAppend(c: Bytes, h: Handler)
    | DoComplete(c: Bytes, h: Handler)
    | DoReceiveAck(p: Packet)
    | DoRestart(c: Bytes)
    | DoLose(p: Packet)
    | DoDuplicate(p: Packet)
    | DoInject(p: Packet)
    | DoBind(c: Bytes, account: Bytes, core: Bytes)
    | DoTick(c: Bytes, now: int)

  /** Acks cannot be forged: one that verifies was signed by the core it names. */
  ghost predicate Unforged(w: Wire, k: Crypto, h: History, p: Packet) {
    match w.ackOf(p.data)
    case None => true
    case Some((source, ack)) =>
      AckVerified(w, k, source, p.target, ack) ==>
        exists x :: x in h.signed && x.core == source &&
                    w.ackPayload(x.core, x.target, x.ack) == w.ackPayload(source, p.target, ack)
  }

  /** An account-signed Direct message in the packet was accepted by the core it claims. */
  ghost predicate Authentic(w: Wire, k: Crypto, h: History, p: Packet) {
    match w.directOf(p.data)
    case None => true
    case Some((source, m)) => k.accountSigned(m) ==> (source, m) in h.accepted
  }

  /** Which actions can happen. With `honest` the network only injects Direct messages some
      core accepted; without it, anything an account ever signed, under any source. */
  ghost predicate Enabled(w: Wire, k: Crypto, honest: bool, s: State, a: Action) {
    match a
    case DoSubmit(c, _) => c in s.cores
    case DoList(c) => c in s.cores
    case DoRetry(c, job) => c in s.cores && job in s.cores[c].listed
    case DoPrune(c) => c in s.cores
    case DoReceiveDirect(p) => p in s.net && p.target in s.cores
    case DoAbandon(c, h, _, _) => c in s.cores && h in s.cores[c].handlers && !h.appended
    case DoAppend(c, h) => c in s.cores && h in s.cores[c].handlers && !h.appended
    case DoComplete(c, h) => c in s.cores && h in s.cores[c].handlers && h.appended
    case DoReceiveAck(p) => p in s.net && p.target in s.cores
    case DoRestart(c) => c in s.cores
    case DoLose(p) => p in s.net
    case DoDuplicate(p) => p in s.net
    case DoInject(p) => Unforged(w, k, s.history, p) && (honest ==> Authentic(w, k, s.history, p))
    case DoBind(c, _, _) => c in s.cores
    case DoTick(c, now) => c in s.cores && s.cores[c].clock <= now
  }

  ghost function Apply(w: Wire, k: Crypto, honest: bool, s: State, a: Action): State
    requires Enabled(w, k, honest, s, a)
  {
    match a
    case DoSubmit(c, m) => Submit(w, k, s, c, m)
    case DoList(c) => ListJobs(s, c)
    case DoRetry(c, job) => RetryJob(w, s, c, job)
    case DoPrune(c) => PruneJobs(s, c)
    case DoReceiveDirect(p) => ReceiveDirect(w, k, s, p)
    case DoAbandon(c, h, code, ms) => Abandon(w, k, s, c, h, code, ms)
    case DoAppend(c, h) => Append(s, c, h)
    case DoComplete(c, h) => Complete(w, k, s, c, h)
    case DoReceiveAck(p) => ReceiveAck(w, k, s, p)
    case DoRestart(c) => Restart(s, c)
    case DoLose(p) => s.(net := s.net - multiset{p})
    case DoDuplicate(p) => s.(net := s.net + multiset{p})
    case DoInject(p) => s.(net := s.net + multiset{p})
    case DoBind(c, account, core) => WithCore(s, c, s.cores[c].(bindings := s.cores[c].bindings[account := core]))
    case DoTick(c, now) => WithCore(s, c, s.cores[c].(clock := now))
  }

  // --------------------------------------------------------------- invariant

  /** `m` shows that `core` has delivered something that answers for (sender, id, messageId). */
  ghost predicate Witness(k: Crypto, honest: bool, h: History, core: Bytes, source: Bytes, sender: Bytes, id: u64,
                          messageId: Bytes, m: DirectMessage) {
    && k.accountSigned(m) && m.sender == sender && m.senderMsgId == id && m.messageId == messageId
    && (core, DeliveryKey(m)) in h.mailbox
    && (honest ==> (source, m) in h.accepted)
  }

  ghost predicate Delivered(k: Crypto, honest: bool, h: History, core: Bytes, source: Bytes, sender: Bytes, id: u64,
                            messageId: Bytes) {
    exists m :: Witness(k, honest, h, core, source, sender, id, messageId, m)
  }

  /** No core signs OK before the append. */
  ghost predicate SignedOk(k: Crypto, honest: bool, h: History) {
    forall x :: x in h.signed && x.ack.status == ACK_OK ==>
      Delivered(k, honest, h, x.core, x.target, x.ack.sender, x.ack.senderMsgId, x.ack.messageId)
  }

  /** A core accepts one message per sequence number of an account. */
  ghost predicate AcceptedOk(k: Crypto, h: History) {
    && (forall c, m :: (c, m) in h.accepted ==> k.accountSigned(m))
    && (forall c, a, b ::
         (c, a) in h.accepted && (c, b) in h.accepted && a.sender == b.sender && a.senderMsgId == b.senderMsgId ==>
          a == b)
  }

  /** A job carries a message its core accepted. */
  ghost predicate Identified(w: Wire, h: History, c: Bytes, job: Accepted) {
    && w.directOf(job.data).Some?
    && var (source, m) := w.directOf(job.data).value;
       source == c && (c, m) in h.accepted &&
       m.sender == job.sender && m.senderMsgId == job.senderMsgId && m.messageId == job.messageId
  }

  ghost predicate JobOk(w: Wire, k: Crypto, honest: bool, h: History, c: Bytes, job: Accepted) {
    && Identified(w, h, c, job)
    && (job.status == ACK_OK ==> Delivered(k, honest, h, job.target, c, job.sender, job.senderMsgId, job.messageId))
  }

  ghost predicate StoreInv(w: Wire, k: Crypto, honest: bool, h: History, c: Bytes, store: Store) {
    && StoreOk(store)
    && (forall key :: key in store.accepted ==> JobOk(w, k, honest, h, c, store.accepted[key]))
    && (forall m :: (c, m) in h.accepted ==> m.senderMsgId < NextId(store, m.sender))
  }

  ghost predicate HandlerOk(k: Crypto, honest: bool, h: History, c: Bytes, core: Core, x: Handler) {
    && k.accountSigned(x.message)
    && W.Reserved(core.replay, DeliveryKey(x.message))
    && core.handlers[x] == 1
    && (honest ==> (x.source, x.message) in h.accepted)
    && (x.appended ==> (c, DeliveryKey(x.message)) in h.mailbox)
  }

  /** Every delivery in progress holds the reservation of its key, alone. */
  ghost predicate HandlersInv(k: Crypto, honest: bool, h: History, c: Bytes, core: Core) {
    && (forall x :: x in core.handlers ==> HandlerOk(k, honest, h, c, core, x))
    && (forall x, y ::
         x in core.handlers && y in core.handlers && DeliveryKey(x.message) == DeliveryKey(y.message) ==> x == y)
  }

  /** The window remembers only keys whose append succeeded. */
  ghost predicate ReplayInv(h: History, clock: int, c: Bytes, replay: Window) {
    && W.Inv(replay, clock)
    && (forall key :: key in replay.entries && replay.entries[key].Committed? ==> (c, key) in h.mailbox)
  }

  ghost predicate CoreInv(w: Wire, k: Crypto, honest: bool, h: History, c: Bytes, core: Core) {
    && StoreInv(w, k, honest, h, c, core.store)
    && (forall job :: job in core.listed ==> Identified(w, h, c, job))
    && HandlersInv(k, honest, h, c, core)
    && ReplayInv(h, core.clock, c, core.replay)
  }

  ghost predicate PacketOk(w: Wire, k: Crypto, honest: bool, h: History, p: Packet) {
    Unforged(w, k, h, p) && (honest ==> Authentic(w, k, h, p))
  }

  ghost predicate Inv(w: Wire, k: Crypto, honest: bool, s: State) {
    && AcceptedOk(k, s.history)
    && SignedOk(k, honest, s.history)
    && (forall p :: p in s.net ==> PacketOk(w, k, honest, s.history, p))
    && (forall c :: c in s.cores ==> CoreInv(w, k, honest, s.history, c, s.cores[c]))
  }

  // ------------------------------------------------ facts only accumulate

  ghost predicate Grows(h: History, g: History) {
    h.mailbox <= g.mailbox && h.accepted <= g.accepted && h.signed <= g.signed
  }

  lemma DeliveredGrows(k: Crypto, honest: bool, h: History, g: History, core: Bytes, source: Bytes, sender: Bytes,
                       id: u64,
                       messageId: Bytes)
    requires Grows(h, g) && Delivered(k, honest, h, core, source, sender, id, messageId)
    ensures Delivered(k, honest, g, core, source, sender, id, messageId)
  {
    var m :| Witness(k, honest, h, core, source, sender, id, messageId, m);
    assert Witness(k, honest, g, core, source, sender, id, messageId, m);
  }

  lemma PacketOkGrows(w: Wire, k: Crypto, honest: bool, h: History, g: History, p: Packet)
    requires Grows(h, g) && PacketOk(w, k, honest, h, p)
    ensures PacketOk(w, k, honest, g, p)
  {
  }

  lemma JobOkGrows(w: Wire, k: Crypto, honest: bool, h: History, g: History, c: Bytes, job: Accepted)
    requires Grows(h, g) && JobOk(w, k, honest, h, c, job)
    ensures JobOk(w, k, honest, g, c, job)
  {
    if job.status == ACK_OK {
      DeliveredGrows(k, honest, h, g, job.target, c, job.sender, job.senderMsgId, job.messageId);
    }
  }

  lemma StoreInvGrows(w: Wire, k: Crypto, honest: bool, h: History, g: History, c: Bytes, store: Store)
    requires Grows(h, g) && StoreInv(w, k, honest, h, c, store)
    requires forall m :: (c, m) in g.accepted ==> (c, m) in h.accepted
    ensures StoreInv(w, k, honest, g, c, store)
  {
    forall key | key in store.accepted ensures JobOk(w, k, honest, g, c, store.accepted[key]) {
      JobOkGrows(w, k, honest, h, g, c, store.accepted[key]);
    }
  }

  lemma CoreInvGrows(w: Wire, k: Crypto, honest: bool, h: History, g: History, c: Bytes, core: Core)
    requires Grows(h, g) && CoreInv(w, k, honest, h, c, core)
    requires forall m :: (c, m) in g.accepted ==> (c, m) in h.accepted
    ensures CoreInv(w, k, honest, g, c, core)
  {
    StoreInvGrows(w, k, honest, h, g, c, core.store);
    forall x | x in core.handlers ensures HandlerOk(k, honest, g, c, core, x) {
      assert HandlerOk(k, honest, h, c, core, x);
    }
  }

  lemma SignedOkGrows(k: Crypto, honest: bool, h: History, g: History)
    requires Grows(h, g) && SignedOk(k, honest, h) && g.signed == h.signed
    ensures SignedOk(k, honest, g)
  {
    forall x | x in g.signed && x.ack.status == ACK_OK
      ensures Delivered(k, honest, g, x.core, x.target, x.ack.sender, x.ack.senderMsgId, x.ack.messageId)
    {
      DeliveredGrows(k, honest, h, g, x.core, x.target, x.ack.sender, x.ack.senderMsgId, x.ack.messageId);
    }
  }

  /** One core changes, nothing else. */
  lemma WithCoreInv(w: Wire, k: Crypto, honest: bool, s: State, c: Bytes, core: Core)
    requires Inv(w, k, honest, s) && CoreInv(w, k, honest, s.history, c, core)
    ensures Inv(w, k, honest, WithCore(s, c, core))
  {
  }

  /** Anything that decodes to a stored job may be sent. */
  lemma JobPacketOk(w: Wire, k: Crypto, honest: bool, h: History, c: Bytes, job: Accepted, target: Bytes)
    requires WireOk(w) && Identified(w, h, c, job)
    ensures PacketOk(w, k, honest, h, Packet(target, job.data))
  {
  }

  lemma PostInv(w: Wire, k: Crypto, honest: bool, s: State, target: Bytes, data: Bytes)
    requires Inv(w, k, honest, s) && PacketOk(w, k, honest, s.history, Packet(target, data))
    ensures Inv(w, k, honest, s.(net := Post(s.net, target, data)))
  {
  }

  lemma TakeInv(w: Wire, k: Crypto, honest: bool, s: State, p: Packet)
    requires Inv(w, k, honest, s)
    ensures Inv(w, k, honest, s.(net := s.net - multiset{p}))
  {
  }

  /** An OK ack is only signed for a delivery that happened. */
  lemma SendAckInv(w: Wire, k: Crypto, honest: bool, s: State, c: Bytes, target: Bytes, ack: MessageAck)
    requires WireOk(w) && Inv(w, k, honest, s)
    requires ack.status == ACK_OK ==>
      Delivered(k, honest, s.history, c, target, ack.sender, ack.senderMsgId, ack.messageId)
    ensures Inv(w, k, honest, SendAck(w, k, s, c, target, ack))
  {
    var h := s.history;
    var g := h.(signed := h.signed + {SignedAck(c, target, ack)});
    var noted := s.(history := g);
    assert Inv(w, k, honest, noted) by {
      forall p | p in s.net ensures PacketOk(w, k, honest, g, p) { PacketOkGrows(w, k, honest, h, g, p); }
      forall d | d in s.cores ensures CoreInv(w, k, honest, g, d, s.cores[d]) {
        CoreInvGrows(w, k, honest, h, g, d, s.cores[d]);
      }
      forall x | x in g.signed && x.ack.status == ACK_OK
        ensures Delivered(k, honest, g, x.core, x.target, x.ack.sender, x.ack.senderMsgId, x.ack.messageId)
      {
        DeliveredGrows(k, honest, h, g, x.core, x.target, x.ack.sender, x.ack.senderMsgId, x.ack.messageId);
      }
    }
    if w.ackPayload(c, target, ack).Some? {
      var signed := ack.(signature := k.sign(c, w.ackPayload(c, target, ack).value));
      if w.putAck(c, signed).Some? {
        AckPacketOk(w, k, honest, g, c, target, ack, signed);
        PostInv(w, k, honest, noted, target, w.putAck(c, signed).value);
      }
    }
  }

  lemma AckPacketOk(w: Wire, k: Crypto, honest: bool, h: History, c: Bytes, target: Bytes, ack: MessageAck,
                    signed: MessageAck)
    requires WireOk(w) && SignedAck(c, target, ack) in h.signed && signed == ack.(signature := signed.signature)
    requires w.putAck(c, signed).Some?
    ensures PacketOk(w, k, honest, h, Packet(target, w.putAck(c, signed).value))
  {
    assert SameButSignature(signed, ack);
    var x := SignedAck(c, target, ack);
    assert x in h.signed && w.ackPayload(x.core, x.target, x.ack) == w.ackPayload(c, target, signed);
  }

  // -------------------------------------------------------------- sender side

  /** Offering a known job again moves at most the target of an unfinished job, which no
      OK status can be attached to. */
  lemma ReadmitInv(w: Wire, k: Crypto, honest: bool, h: History, c: Bytes, store: Store, q: Request)
    requires StoreInv(w, k, honest, h, c, store)
    requires var r := Accept(store, q); r.outcome.Admitted? && r.outcome.duplicate
    ensures StoreInv(w, k, honest, h, c, Accept(store, q).store)
    ensures Identified(w, h, c, Accept(store, q).outcome.record)
  {
    AcceptKeepsStoreOk(store, q);
    var r := Accept(store, q);
    var key := Key(q.sender, q.messageId);
    assert RecordOk(store, key);
    forall j | j in r.store.accepted ensures JobOk(w, k, honest, h, c, r.store.accepted[j]) {
      assert JobOk(w, k, honest, h, c, store.accepted[j]);
    }
    assert JobOk(w, k, honest, h, c, r.store.accepted[key]);
  }

  /** A fresh acceptance files the very message submitted. */
  lemma AdmitInv(w: Wire, k: Crypto, honest: bool, h: History, c: Bytes, store: Store, q: Request, m: DirectMessage)
    requires StoreInv(w, k, honest, h, c, store) && Accept(store, q).Fresh()
    requires w.directOf(q.data) == Some((c, m))
    requires q.sender == m.sender && q.senderMsgId == m.senderMsgId && q.messageId == m.messageId
    ensures var g := h.(accepted := h.accepted + {(c, m)});
            StoreInv(w, k, honest, g, c, Accept(store, q).store) && Identified(w, g, c, Accept(store, q).outcome.record)
    ensures m.senderMsgId == NextId(store, m.sender)
  {
    var g := h.(accepted := h.accepted + {(c, m)});
    AcceptKeepsStoreOk(store, q);
    var r := Accept(store, q);
    var key := Key(q.sender, q.messageId);
    forall j | j in r.store.accepted ensures JobOk(w, k, honest, g, c, r.store.accepted[j]) {
      if j != key { JobOkGrows(w, k, honest, h, g, c, store.accepted[j]); }
    }
  }

  lemma AcceptedOkGrows(w: Wire, k: Crypto, honest: bool, h: History, c: Bytes, store: Store, m: DirectMessage)
    requires AcceptedOk(k, h) && StoreInv(w, k, honest, h, c, store)
    requires k.accountSigned(m) && m.senderMsgId == NextId(store, m.sender)
    ensures AcceptedOk(k, h.(accepted := h.accepted + {(c, m)}))
  {
  }

  /** A message is filed in the store of one core and noted as accepted there. */
  lemma FileInv(w: Wire, k: Crypto, honest: bool, s: State, c: Bytes, m: DirectMessage, store: Store)
    requires Inv(w, k, honest, s) && c in s.cores && k.accountSigned(m) &&
      m.senderMsgId == NextId(s.cores[c].store, m.sender)
    requires StoreInv(w, k, honest, s.history.(accepted := s.history.accepted + {(c, m)}), c, store)
    ensures var g := s.history.(accepted := s.history.accepted + {(c, m)});
            Inv(w, k, honest, WithCore(s, c, s.cores[c].(store := store)).(history := g))
  {
    var h := s.history;
    var g := h.(accepted := h.accepted + {(c, m)});
    var core := s.cores[c];
    AcceptedOkGrows(w, k, honest, h, c, core.store, m);
    OthersGrow(w, k, honest, s, c, g);
    CoreRestGrows(w, k, honest, h, g, c, core, store);
    Assemble(w, k, honest, s, c, core.(store := store), g);
  }

  /** New facts about one core leave the others, the acks and the packets as good as before. */
  lemma OthersGrow(w: Wire, k: Crypto, honest: bool, s: State, c: Bytes, g: History)
    requires Inv(w, k, honest, s) && Grows(s.history, g) && g.signed == s.history.signed
    requires forall d, m :: (d, m) in g.accepted && d != c ==> (d, m) in s.history.accepted
    ensures SignedOk(k, honest, g)
    ensures forall p :: p in s.net ==> PacketOk(w, k, honest, g, p)
    ensures forall d :: d in s.cores && d != c ==> CoreInv(w, k, honest, g, d, s.cores[d])
  {
    var h := s.history;
    SignedOkGrows(k, honest, h, g);
    forall p | p in s.net ensures PacketOk(w, k, honest, g, p) { PacketOkGrows(w, k, honest, h, g, p); }
    forall d | d in s.cores && d != c ensures CoreInv(w, k, honest, g, d, s.cores[d]) {
      CoreInvGrows(w, k, honest, h, g, d, s.cores[d]);
    }
  }

  lemma Assemble(w: Wire, k: Crypto, honest: bool, s: State, c: Bytes, core: Core, g: History)
    requires AcceptedOk(k, g) && SignedOk(k, honest, g) && CoreInv(w, k, honest, g, c, core)
    requires forall p :: p in s.net ==> PacketOk(w, k, honest, g, p)
    requires forall d :: d in s.cores && d != c ==> CoreInv(w, k, honest, g, d, s.cores[d])
    ensures Inv(w, k, honest, WithCore(s, c, core).(history := g))
  {
  }

  lemma CoreRestGrows(w: Wire, k: Crypto, honest: bool, h: History, g: History, c: Bytes, core: Core, store: Store)
    requires Grows(h, g) && CoreInv(w, k, honest, h, c, core) && StoreInv(w, k, honest, g, c, store)
    ensures CoreInv(w, k, honest, g, c, core.(store := store))
  {
    var next := core.(store := store);
    forall x | x in next.handlers ensures HandlerOk(k, honest, g, c, next, x) {
      assert HandlerOk(k, honest, h, c, core, x);
    }
  }

  lemma StoreChangeInv(w: Wire, k: Crypto, honest: bool, s: State, c: Bytes, store: Store)
    requires Inv(w, k, honest, s) && c in s.cores && StoreInv(w, k, honest, s.history, c, store)
    ensures Inv(w, k, honest, WithCore(s, c, s.cores[c].(store := store)))
  {
    var core := s.cores[c];
    var next := core.(store := store);
    forall x | x in next.handlers ensures HandlerOk(k, honest, s.history, c, next, x) {
      assert HandlerOk(k, honest, s.history, c, core, x);
    }
    WithCoreInv(w, k, honest, s, c, next);
  }

  lemma SubmitFreshInv(w: Wire, k: Crypto, honest: bool, s: State, c: Bytes, q: Request, m: DirectMessage)
    requires WireOk(w) && Inv(w, k, honest, s) && c in s.cores && k.accountSigned(m) &&
      Accept(s.cores[c].store, q).Fresh()
    requires w.directOf(q.data) == Some((c, m))
    requires q.sender == m.sender && q.senderMsgId == m.senderMsgId && q.messageId == m.messageId
    ensures var r := Accept(s.cores[c].store, q);
            var g := s.history.(accepted := s.history.accepted + {(c, m)});
            var t := WithCore(s, c, s.cores[c].(store := r.store)).(history := g);
            Inv(w, k, honest, t.(net := Post(t.net, r.outcome.record.target, r.outcome.record.data)))
  {
    var r := Accept(s.cores[c].store, q);
    var g := s.history.(accepted := s.history.accepted + {(c, m)});
    AdmitInv(w, k, honest, s.history, c, s.cores[c].store, q, m);
    FileInv(w, k, honest, s, c, m, r.store);
    JobPacketOk(w, k, honest, g, c, r.outcome.record, r.outcome.record.target);
    PostInv(w, k, honest, WithCore(s, c, s.cores[c].(store := r.store)).(history := g), r.outcome.record.target,
      r.outcome.record.data);
  }

  lemma SubmitAgainInv(w: Wire, k: Crypto, honest: bool, s: State, c: Bytes, q: Request)
    requires WireOk(w) && Inv(w, k, honest, s) && c in s.cores
    requires var r := Accept(s.cores[c].store, q); r.outcome.Admitted? && r.outcome.duplicate
    ensures var r := Accept(s.cores[c].store, q);
            var t := WithCore(s, c, s.cores[c].(store := r.store));
            Inv(w, k, honest, t.(net := Post(t.net, r.outcome.record.target, r.outcome.record.data)))
  {
    var r := Accept(s.cores[c].store, q);
    ReadmitInv(w, k, honest, s.history, c, s.cores[c].store, q);
    StoreChangeInv(w, k, honest, s, c, r.store);
    JobPacketOk(w, k, honest, s.history, c, r.outcome.record, r.outcome.record.target);
    PostInv(w, k, honest, WithCore(s, c, s.cores[c].(store := r.store)), r.outcome.record.target,
      r.outcome.record.data);
  }

  lemma SubmitInv(w: Wire, k: Crypto, honest: bool, s: State, c: Bytes, m: DirectMessage)
    requires WireOk(w) && Inv(w, k, honest, s) && c in s.cores
    ensures Inv(w, k, honest, Submit(w, k, s, c, m))
  {
    var target, data := CoreFor(s.cores[c].bindings, m.recipient), w.putDirect(c, m);
    if k.accountSigned(m) && CoreFor(s.cores[c].bindings, m.sender) == Some(c) && target.Some? && data.Some? {
      var q := Request(m.sender, m.senderMsgId, m.messageId, k.digest(data.value), target.value, data.value, NoCharge);
      var r := Accept(s.cores[c].store, q);
      if r.Fresh() {
        SubmitFreshInv(w, k, honest, s, c, q, m);
      } else if r.outcome.Admitted? {
        SubmitAgainInv(w, k, honest, s, c, q);
      }
    }
  }

  lemma ListInv(w: Wire, k: Crypto, honest: bool, s: State, c: Bytes)
    requires Inv(w, k, honest, s) && c in s.cores
    ensures Inv(w, k, honest, ListJobs(s, c))
  {
    var core := s.cores[c];
    var next := core.(listed := PendingSet(core.store));
    forall job | job in next.listed ensures Identified(w, s.history, c, job) {
      var key :| key in core.store.accepted && core.store.accepted[key] == job;
      assert JobOk(w, k, honest, s.history, c, core.store.accepted[key]);
    }
    forall x | x in next.handlers ensures HandlerOk(k, honest, s.history, c, next, x) {
      assert HandlerOk(k, honest, s.history, c, core, x);
    }
    WithCoreInv(w, k, honest, s, c, next);
  }

  /** A listed job is never admitted anew, so refreshing it only moves targets. */
  lemma RefreshInv(w: Wire, k: Crypto, honest: bool, h: History, c: Bytes, b: Bindings, store: Store, job: Accepted)
    requires StoreInv(w, k, honest, h, c, store) && Identified(w, h, c, job)
    ensures var r := Refresh(w.destination, b, store, job);
            && StoreInv(w, k, honest, h, c, r.store)
            && r.store.next == store.next
            && (r.outcome.Ok? ==> Identified(w, h, c, r.outcome.value))
  {
    match w.destination(job.data)
    case Ok(Some(recipient)) =>
      match CoreFor(b, recipient) {
        case Some(target) =>
          var r := Accept(store, Reoffer(job, target));
          assert job.senderMsgId < NextId(store, job.sender);
          if r.outcome.Admitted? { ReadmitInv(w, k, honest, h, c, store, Reoffer(job, target)); }
        case None =>
      }
    case Ok(None) =>
    case Err(_) =>
  }

  lemma RetryInv(w: Wire, k: Crypto, honest: bool, s: State, c: Bytes, job: Accepted)
    requires WireOk(w) && Inv(w, k, honest, s) && c in s.cores && job in s.cores[c].listed
    ensures Inv(w, k, honest, RetryJob(w, s, c, job))
  {
    var core := s.cores[c];
    RefreshInv(w, k, honest, s.history, c, core.bindings, core.store, job);
    var r := Refresh(w.destination, core.bindings, core.store, job);
    var next := core.(store := r.store, listed := core.listed - {job});
    forall x | x in next.handlers ensures HandlerOk(k, honest, s.history, c, next, x) {
      assert HandlerOk(k, honest, s.history, c, core, x);
    }
    WithCoreInv(w, k, honest, s, c, next);
    if r.outcome.Ok? {
      JobPacketOk(w, k, honest, s.history, c, r.outcome.value, r.outcome.value.target);
      PostInv(w, k, honest, WithCore(s, c, next), r.outcome.value.target, r.outcome.value.data);
    }
  }

  lemma PruneInv(w: Wire, k: Crypto, honest: bool, s: State, c: Bytes)
    requires Inv(w, k, honest, s) && c in s.cores
    ensures Inv(w, k, honest, PruneJobs(s, c))
  {
    var store := s.cores[c].store;
    PruneDrops(store, s.cores[c].clock);
    FewerInv(w, k, honest, s.history, c, store, Prune(store, s.cores[c].clock));
    StoreChangeInv(w, k, honest, s, c, Prune(store, s.cores[c].clock));
  }

  lemma FewerInv(w: Wire, k: Crypto, honest: bool, h: History, c: Bytes, store: Store, pruned: Store)
    requires StoreInv(w, k, honest, h, c, store) && Fewer(store, pruned)
    ensures StoreInv(w, k, honest, h, c, pruned)
  {
    forall key | key in pruned.accepted
      ensures RecordOk(pruned, key) && JobOk(w, k, honest, h, c, pruned.accepted[key])
    {
      assert RecordOk(store, key) && JobOk(w, k, honest, h, c, store.accepted[key]);
    }
  }

  /** An ack that verifies was signed by the core it names, over exactly these fields, so
      OK means that core appended the message before it signed. */
  lemma OkAckMeansDelivered(w: Wire, k: Crypto, honest: bool, h: History, p: Packet, source: Bytes, ack: MessageAck)
    requires WireOk(w) && SignedOk(k, honest, h) && Unforged(w, k, h, p) && ack.status == ACK_OK
    requires w.ackOf(p.data) == Some((source, ack)) && AckVerified(w, k, source, p.target, ack)
    ensures Delivered(k, honest, h, source, p.target, ack.sender, ack.senderMsgId, ack.messageId)
  {
    var x :| x in h.signed && x.core == source &&
      w.ackPayload(x.core, x.target, x.ack) == w.ackPayload(source, p.target, ack);
    assert x.target == p.target && SameButSignature(x.ack, ack);
  }

  /** The key an ack names is the key of the job it names. */
  lemma AckNamesJob(w: Wire, h: History, c: Bytes, store: Store, sender: Bytes, messageId: Bytes)
    requires WireOk(w) && StoreOk(store) && ValidAccount(sender) && Key(sender, messageId) in store.accepted
    requires Identified(w, h, c, store.accepted[Key(sender, messageId)])
    ensures var job := store.accepted[Key(sender, messageId)]; job.sender == sender && job.messageId == messageId
  {
    var key := Key(sender, messageId);
    assert RecordOk(store, key);
    var job := store.accepted[key];
    assert ValidAccount(job.sender);
    KeyInjective(job.sender, job.messageId, sender, messageId);
  }

  /** A verified ack leaves every job as good as it was, the one it names included. */
  lemma MarkedJobOk(w: Wire, k: Crypto, honest: bool, h: History, c: Bytes, store: Store, source: Bytes,
                    ack: MessageAck, j: Bytes)
    requires WireOk(w) && StoreInv(w, k, honest, h, c, store) && j in store.accepted && ValidAccount(ack.sender)
    requires ack.status == ACK_OK ==> Delivered(k, honest, h, source, c, ack.sender, ack.senderMsgId, ack.messageId)
    ensures var r := MarkAck(store, ack.sender, ack.messageId, ack.senderMsgId, source, ack.status).store;
            j in r.accepted && JobOk(w, k, honest, h, c, r.accepted[j])
  {
    assert JobOk(w, k, honest, h, c, store.accepted[j]);
    if j == Key(ack.sender, ack.messageId) {
      AckNamesJob(w, h, c, store, ack.sender, ack.messageId);
    }
  }

  lemma MarkInv(w: Wire, k: Crypto, honest: bool, h: History, c: Bytes, store: Store, p: Packet, source: Bytes,
                ack: MessageAck)
    requires WireOk(w) && SignedOk(k, honest, h) && StoreInv(w, k, honest, h, c, store) && Unforged(w, k, h, p)
    requires p.target == c && w.ackOf(p.data) == Some((source, ack)) && AckVerified(w, k, source, c, ack)
    ensures StoreInv(w, k, honest, h, c,
      MarkAck(store, ack.sender, ack.messageId, ack.senderMsgId, source, ack.status).store)
  {
    MarkAckKeepsStoreOk(store, ack.sender, ack.messageId, ack.senderMsgId, source, ack.status);
    if ack.status == ACK_OK { OkAckMeansDelivered(w, k, honest, h, p, source, ack); }
    var r := MarkAck(store, ack.sender, ack.messageId, ack.senderMsgId, source, ack.status).store;
    forall j | j in r.accepted ensures JobOk(w, k, honest, h, c, r.accepted[j]) {
      MarkedJobOk(w, k, honest, h, c, store, source, ack, j);
    }
  }

  lemma ReceiveAckInv(w: Wire, k: Crypto, honest: bool, s: State, p: Packet)
    requires WireOk(w) && Inv(w, k, honest, s) && p in s.net && p.target in s.cores
    ensures Inv(w, k, honest, ReceiveAck(w, k, s, p))
  {
    TakeInv(w, k, honest, s, p);
    var taken := s.(net := s.net - multiset{p});
    if w.ackOf(p.data).Some? {
      var (source, ack) := w.ackOf(p.data).value;
      if AckVerified(w, k, source, p.target, ack) && ack.original != TOPIC_FANOUT && ack.original != TOPIC_KEY_FANOUT {
        assert PacketOk(w, k, honest, s.history, p);
        MarkInv(w, k, honest, s.history, p.target, s.cores[p.target].store, p, source, ack);
        StoreChangeInv(w, k, honest, taken, p.target,
                       MarkAck(s.cores[p.target].store, ack.sender, ack.messageId, ack.senderMsgId, source,
                         ack.status).store);
      }
    }
  }

  // ----------------------------------------------------------- recipient side

  lemma DeliveryKeyNonEmpty(m: DirectMessage)
    ensures DeliveryKey(m) != []
  {
  }

  /** A window call keeps what the core knows, as long as any key it commits was appended. */
  lemma WindowStepInv(h: History, clock: int, c: Bytes, replay: Window, e: W.Event)
    requires ReplayInv(h, clock, c, replay) && e.now == clock
    requires e.Finishes? && e.committed && W.Closes(replay, e) ==> (c, e.key) in h.mailbox
    ensures ReplayInv(h, clock, c, W.Step(replay, e))
  {
    W.StepInv(replay, e, clock);
    forall key | key in W.Step(replay, e).entries && W.Step(replay, e).entries[key].Committed?
      ensures (c, key) in h.mailbox
    {
      W.StepRemembered(replay, e, key);
    }
  }

  /** Handlers keep their reservations when the window grants or answers another begin. */
  lemma BeginHandlersInv(k: Crypto, honest: bool, h: History, c: Bytes, core: Core, key: Bytes, now: int)
    requires HandlersInv(k, honest, h, c, core) && key != []
    ensures HandlersInv(k, honest, h, c, core.(replay := W.Step(core.replay, W.Begins(key, now))))
  {
    var e := W.Begins(key, now);
    var next := core.(replay := W.Step(core.replay, e));
    forall x | x in next.handlers ensures HandlerOk(k, honest, h, c, next, x) {
      assert HandlerOk(k, honest, h, c, core, x);
      DeliveryKeyNonEmpty(x.message);
      W.StepReserved(core.replay, e, DeliveryKey(x.message));
    }
  }

  lemma GrantHandlersInv(k: Crypto, honest: bool, h: History, c: Bytes, core: Core, x: Handler, now: int)
    requires HandlersInv(k, honest, h, c, core) && k.accountSigned(x.message) && !x.appended
    requires honest ==> (x.source, x.message) in h.accepted
    requires W.Begin(core.replay, DeliveryKey(x.message), now).1 == W.Granted
    ensures HandlersInv(k, honest, h, c, core.(replay := W.Step(core.replay, W.Begins(DeliveryKey(x.message), now)),
                                               handlers := core.handlers + multiset{x}))
  {
    var key := DeliveryKey(x.message);
    DeliveryKeyNonEmpty(x.message);
    var e := W.Begins(key, now);
    W.StepReserved(core.replay, e, key);
    var next := core.(replay := W.Step(core.replay, e), handlers := core.handlers + multiset{x});
    forall y | y in core.handlers ensures DeliveryKey(y.message) != key {
      assert HandlerOk(k, honest, h, c, core, y);
    }
    forall y | y in next.handlers ensures HandlerOk(k, honest, h, c, next, y) {
      if y in core.handlers {
        assert HandlerOk(k, honest, h, c, core, y);
        DeliveryKeyNonEmpty(y.message);
        W.StepReserved(core.replay, e, DeliveryKey(y.message));
      }
    }
  }

  lemma FinishHandlersInv(k: Crypto, honest: bool, h: History, c: Bytes, core: Core, x: Handler, committed: bool,
                          now: int)
    requires HandlersInv(k, honest, h, c, core) && x in core.handlers
    ensures HandlersInv(k, honest, h, c,
      core.(replay := W.Step(core.replay, W.Finishes(DeliveryKey(x.message), committed, now)),
                                               handlers := core.handlers - multiset{x}))
  {
    var e := W.Finishes(DeliveryKey(x.message), committed, now);
    var next := core.(replay := W.Step(core.replay, e), handlers := core.handlers - multiset{x});
    assert HandlerOk(k, honest, h, c, core, x);
    forall y | y in next.handlers ensures HandlerOk(k, honest, h, c, next, y) {
      assert HandlerOk(k, honest, h, c, core, y);
      DeliveryKeyNonEmpty(y.message);
      W.StepReserved(core.replay, e, DeliveryKey(y.message));
    }
  }

  lemma BeginInv(w: Wire, k: Crypto, honest: bool, s: State, c: Bytes, key: Bytes)
    requires Inv(w, k, honest, s) && c in s.cores && key != []
    ensures Inv(w, k, honest,
      WithCore(s, c, s.cores[c].(replay := W.Step(s.cores[c].replay, W.Begins(key, s.cores[c].clock)))))
  {
    var core := s.cores[c];
    WindowStepInv(s.history, s.cores[c].clock, c, core.replay, W.Begins(key, s.cores[c].clock));
    BeginHandlersInv(k, honest, s.history, c, core, key, s.cores[c].clock);
    WithCoreInv(w, k, honest, s, c, core.(replay := W.Step(core.replay, W.Begins(key, s.cores[c].clock))));
  }

  lemma HandleDirectInv(w: Wire, k: Crypto, honest: bool, s: State, c: Bytes, source: Bytes, m: DirectMessage)
    requires WireOk(w) && Inv(w, k, honest, s) && c in s.cores
    requires honest && k.accountSigned(m) ==> (source, m) in s.history.accepted
    ensures Inv(w, k, honest, HandleDirect(w, k, s, c, source, m))
  {
    if k.accountSigned(m) && source != [] && CoreFor(s.cores[c].bindings, m.sender) == Some(source) {
      if CoreFor(s.cores[c].bindings, m.recipient) != Some(c) {
        SendAckInv(w, k, honest, s, c, source, DirectAck(m, ACK_RETRYABLE, Ascii("RECIPIENT_MOVED"), 0));
      } else {
        StartDeliveryInv(w, k, honest, s, c, source, m);
      }
    }
  }

  lemma ReceiveDirectInv(w: Wire, k: Crypto, honest: bool, s: State, p: Packet)
    requires WireOk(w) && Inv(w, k, honest, s) && p in s.net && p.target in s.cores
    ensures Inv(w, k, honest, ReceiveDirect(w, k, s, p))
  {
    TakeInv(w, k, honest, s, p);
    if w.directOf(p.data).Some? {
      var (source, m) := w.directOf(p.data).value;
      assert PacketOk(w, k, honest, s.history, p);
      HandleDirectInv(w, k, honest, s.(net := s.net - multiset{p}), p.target, source, m);
    }
  }

  lemma StartDeliveryInv(w: Wire, k: Crypto, honest: bool, s: State, c: Bytes, source: Bytes, m: DirectMessage)
    requires WireOk(w) && Inv(w, k, honest, s) && c in s.cores && k.accountSigned(m)
    requires honest ==> (source, m) in s.history.accepted
    ensures Inv(w, k, honest, StartDelivery(w, k, s, c, source, m))
  {
    var key := DeliveryKey(m);
    DeliveryKeyNonEmpty(m);
    var core := s.cores[c];
    var e := W.Begins(key, s.cores[c].clock);
    var next := core.(replay := W.Step(core.replay, e));
    BeginInv(w, k, honest, s, c, key);
    match W.Begin(core.replay, key, s.cores[c].clock).1
    case Duplicate =>
      W.DuplicateRemembered(core.replay, key, s.cores[c].clock);
      assert Witness(k, honest, s.history, c, source, m.sender, m.senderMsgId, m.messageId, m);
      SendAckInv(w, k, honest, WithCore(s, c, next), c, source, DirectAck(m, ACK_OK, [], 0));
    case InProgress =>
      SendAckInv(w, k, honest, WithCore(s, c, next), c, source,
                 DirectAck(m, ACK_RETRYABLE, Ascii("DIRECT_DELIVERY_IN_PROGRESS"), 100));
    case Granted =>
      WindowStepInv(s.history, s.cores[c].clock, c, core.replay, e);
      GrantHandlersInv(k, honest, s.history, c, core, Handler(source, m, false), s.cores[c].clock);
      WithCoreInv(w, k, honest, s, c, next.(handlers := core.handlers + multiset{Handler(source, m, false)}));
  }

  lemma FinishInv(w: Wire, k: Crypto, honest: bool, s: State, c: Bytes, x: Handler, committed: bool)
    requires Inv(w, k, honest, s) && c in s.cores && x in s.cores[c].handlers && (committed ==> x.appended)
    ensures var core := s.cores[c];
            var e := W.Finishes(DeliveryKey(x.message), committed, s.cores[c].clock);
            Inv(w, k, honest,
              WithCore(s, c, core.(replay := W.Step(core.replay, e), handlers := core.handlers - multiset{x})))
  {
    var core := s.cores[c];
    var e := W.Finishes(DeliveryKey(x.message), committed, s.cores[c].clock);
    assert HandlerOk(k, honest, s.history, c, core, x);
    WindowStepInv(s.history, s.cores[c].clock, c, core.replay, e);
    FinishHandlersInv(k, honest, s.history, c, core, x, committed, s.cores[c].clock);
    WithCoreInv(w, k, honest, s, c, core.(replay := W.Step(core.replay, e), handlers := core.handlers - multiset{x}));
  }

  lemma AbandonInv(w: Wire, k: Crypto, honest: bool, s: State, c: Bytes, x: Handler, code: Bytes, ms: u64)
    requires WireOk(w) && Inv(w, k, honest, s) && c in s.cores && x in s.cores[c].handlers
    ensures Inv(w, k, honest, Abandon(w, k, s, c, x, code, ms))
  {
    FinishInv(w, k, honest, s, c, x, false);
    var core := s.cores[c];
    var e := W.Finishes(DeliveryKey(x.message), false, s.cores[c].clock);
    SendAckInv(w, k, honest,
      WithCore(s, c, core.(replay := W.Step(core.replay, e), handlers := core.handlers - multiset{x})),
               c, x.source, DirectAck(x.message, ACK_RETRYABLE, code, ms));
  }

  lemma CompleteInv(w: Wire, k: Crypto, honest: bool, s: State, c: Bytes, x: Handler)
    requires WireOk(w) && Inv(w, k, honest, s) && c in s.cores && x in s.cores[c].handlers && x.appended
    ensures Inv(w, k, honest, Complete(w, k, s, c, x))
  {
    FinishInv(w, k, honest, s, c, x, true);
    var core := s.cores[c];
    assert HandlerOk(k, honest, s.history, c, core, x);
    var m := x.message;
    assert Witness(k, honest, s.history, c, x.source, m.sender, m.senderMsgId, m.messageId, m);
    var e := W.Finishes(DeliveryKey(m), true, s.cores[c].clock);
    SendAckInv(w, k, honest,
      WithCore(s, c, core.(replay := W.Step(core.replay, e), handlers := core.handlers - multiset{x})),
               c, x.source, DirectAck(m, ACK_OK, [], 0));
  }

  lemma AppendHandlersInv(k: Crypto, honest: bool, h: History, g: History, c: Bytes, core: Core, x: Handler)
    requires HandlersInv(k, honest, h, c, core) && x in core.handlers && Grows(h, g) &&
      (c, DeliveryKey(x.message)) in g.mailbox
    ensures HandlersInv(k, honest, g, c,
      core.(handlers := core.handlers - multiset{x} + multiset{x.(appended := true)}))
  {
    var done := x.(appended := true);
    var next := core.(handlers := core.handlers - multiset{x} + multiset{done});
    assert HandlerOk(k, honest, h, c, core, x);
    forall y | y in next.handlers ensures HandlerOk(k, honest, g, c, next, y) && (y == done || y in core.handlers) {
      if y != done || y in core.handlers {
        assert HandlerOk(k, honest, h, c, core, y);
      }
    }
  }

  lemma AppendInv(w: Wire, k: Crypto, honest: bool, s: State, c: Bytes, x: Handler)
    requires Inv(w, k, honest, s) && c in s.cores && x in s.cores[c].handlers
    ensures Inv(w, k, honest, Append(s, c, x))
  {
    var h := s.history;
    var g := h.(mailbox := h.mailbox + {(c, DeliveryKey(x.message))});
    OthersGrow(w, k, honest, s, c, g);
    AppendCoreInv(w, k, honest, h, g, c, s.cores[c], x);
    var done := x.(appended := true);
    Assemble(w, k, honest, s, c, s.cores[c].(handlers := s.cores[c].handlers - multiset{x} + multiset{done}), g);
  }

  lemma AppendCoreInv(w: Wire, k: Crypto, honest: bool, h: History, g: History, c: Bytes, core: Core, x: Handler)
    requires CoreInv(w, k, honest, h, c, core) && x in core.handlers
    requires Grows(h, g) && (c, DeliveryKey(x.message)) in g.mailbox && g.accepted == h.accepted
    ensures CoreInv(w, k, honest, g, c, core.(handlers := core.handlers - multiset{x} + multiset{x.(appended := true)}))
  {
    CoreInvGrows(w, k, honest, h, g, c, core);
    AppendHandlersInv(k, honest, h, g, c, core, x);
  }

  lemma RestartInv(w: Wire, k: Crypto, honest: bool, s: State, c: Bytes)
    requires Inv(w, k, honest, s) && c in s.cores
    ensures Inv(w, k, honest, Restart(s, c))
  {
    var core := s.cores[c];
    WithCoreInv(w, k, honest, s, c,
      Core(core.store, {}, W.New(core.replay.max, core.replay.ttl), multiset{}, core.bindings, core.clock));
  }

  lemma TickInv(w: Wire, k: Crypto, honest: bool, s: State, c: Bytes, now: int)
    requires Inv(w, k, honest, s) && c in s.cores && s.cores[c].clock <= now
    ensures Inv(w, k, honest, WithCore(s, c, s.cores[c].(clock := now)))
  {
    var core := s.cores[c];
    W.InvLater(core.replay, core.clock, now);
    forall x | x in core.handlers ensures HandlerOk(k, honest, s.history, c, core.(clock := now), x) {
      assert HandlerOk(k, honest, s.history, c, core, x);
    }
    WithCoreInv(w, k, honest, s, c, core.(clock := now));
  }

  lemma BindInv(w: Wire, k: Crypto, honest: bool, s: State, c: Bytes, b: Bindings)
    requires Inv(w, k, honest, s) && c in s.cores
    ensures Inv(w, k, honest, WithCore(s, c, s.cores[c].(bindings := b)))
  {
    var core := s.cores[c];
    forall x | x in core.handlers ensures HandlerOk(k, honest, s.history, c, core.(bindings := b), x) {
      assert HandlerOk(k, honest, s.history, c, core, x);
    }
    WithCoreInv(w, k, honest, s, c, core.(bindings := b));
  }

  // ----------------------------------------------------------------- all runs

  lemma StepInv(w: Wire, k: Crypto, honest: bool, s: State, a: Action)
    requires WireOk(w) && Inv(w, k, honest, s) && Enabled(w, k, honest, s, a)
    ensures Inv(w, k, honest, Apply(w, k, honest, s, a))
  {
    match a
    case DoSubmit(c, m) => SubmitInv(w, k, honest, s, c, m);
    case DoList(c) => ListInv(w, k, honest, s, c);
    case DoRetry(c, job) => RetryInv(w, k, honest, s, c, job);
    case DoPrune(c) => PruneInv(w, k, honest, s, c);
    case DoReceiveDirect(p) => ReceiveDirectInv(w, k, honest, s, p);
    case DoAbandon(c, h, code, ms) => AbandonInv(w, k, honest, s, c, h, code, ms);
    case DoAppend(c, h) => AppendInv(w, k, honest, s, c, h);
    case DoComplete(c, h) => CompleteInv(w, k, honest, s, c, h);
    case DoReceiveAck(p) => ReceiveAckInv(w, k, honest, s, p);
    case DoRestart(c) => RestartInv(w, k, honest, s, c);
    case DoLose(p) => TakeInv(w, k, honest, s, p);
    case DoDuplicate(p) => PostInv(w, k, honest, s, p.target, p.data);
    case DoInject(p) => PostInv(w, k, honest, s, p.target, p.data);
    case DoBind(c, account, core) => BindInv(w, k, honest, s, c, s.cores[c].bindings[account := core]);
    case DoTick(c, now) => TickInv(w, k, honest, s, c, now);
  }

  /** Nothing has happened yet. */
  ghost predicate Init(s: State) {
    && s.net == multiset{} && s.history == History({}, {}, {})
    && (forall c :: c in s.cores ==>
          && s.cores[c].store == EMPTY && s.cores[c].listed == {} && s.cores[c].handlers == multiset{}
          && s.cores[c].replay.entries == map[] && s.cores[c].replay.order == [])
  }

  ghost predicate Possible(w: Wire, k: Crypto, honest: bool, s: State, run: seq<Action>)
    decreases run
  {
    run == [] || (Enabled(w, k, honest, s, run[0]) && Possible(w, k, honest, Apply(w, k, honest, s, run[0]), run[1..]))
  }

  ghost function After(w: Wire, k: Crypto, honest: bool, s: State, run: seq<Action>): State
    requires Possible(w, k, honest, s, run)
    decreases run
  {
    if run == [] then s else After(w, k, honest, Apply(w, k, honest, s, run[0]), run[1..])
  }

  lemma {:induction false} RunInv(w: Wire, k: Crypto, honest: bool, s: State, run: seq<Action>)
    requires WireOk(w) && Inv(w, k, honest, s) && Possible(w, k, honest, s, run)
    ensures Inv(w, k, honest, After(w, k, honest, s, run))
    decreases run
  {
    if run != [] {
      StepInv(w, k, honest, s, run[0]);
      RunInv(w, k, honest, Apply(w, k, honest, s, run[0]), run[1..]);
    }
  }

  lemma InitInv(w: Wire, k: Crypto, honest: bool, s: State)
    requires Init(s)
    ensures Inv(w, k, honest, s)
  {
  }

  /** The account never signed two Direct messages with one id pair for different recipients. */
  ghost predicate OneRecipient(k: Crypto, m: DirectMessage) {
    forall o ::
      k.accountSigned(o) && o.sender == m.sender && o.senderMsgId == m.senderMsgId && o.messageId == m.messageId ==>
      o.recipient == m.recipient
  }

  /** A job whose recorded status is OK. */
  ghost predicate ClosedOk(s: State, c: Bytes, key: Bytes) {
    c in s.cores && key in s.cores[c].store.accepted && s.cores[c].store.accepted[key].status == ACK_OK
  }

  /** End-to-end safety. In every run, whatever is lost, duplicated, reordered, retried,
      rebound, pruned or restarted: when a sender's job is recorded as OK, the core it is
      addressed to, whose ack was applied, has appended the job's message to its mailbox
      under (recipient, sender, message id). On a network that also injects Direct messages
      no core accepted, this needs the account not to have signed the same ids for two
      recipients. */
  lemma OkMeansDelivered(w: Wire, k: Crypto, honest: bool, start: State, run: seq<Action>, c: Bytes, key: Bytes)
    requires WireOk(w) && Init(start) && Possible(w, k, honest, start, run)
    requires ClosedOk(After(w, k, honest, start, run), c, key)
    ensures var s := After(w, k, honest, start, run);
            var job := s.cores[c].store.accepted[key];
            && w.directOf(job.data).Some?
            && var (source, m) := w.directOf(job.data).value;
               && source == c && (c, m) in s.history.accepted && k.accountSigned(m)
               && m.sender == job.sender && m.senderMsgId == job.senderMsgId && m.messageId == job.messageId &&
                    job.final
               && (honest || OneRecipient(k, m) ==> (job.target, DeliveryKey(m)) in s.history.mailbox)
  {
    InitInv(w, k, honest, start);
    RunInv(w, k, honest, start, run);
    var s := After(w, k, honest, start, run);
    var job := s.cores[c].store.accepted[key];
    assert JobOk(w, k, honest, s.history, c, job);
    assert RecordOk(s.cores[c].store, key);
    var (source, m) := w.directOf(job.data).value;
    var o :| Witness(k, honest, s.history, job.target, c, job.sender, job.senderMsgId, job.messageId, o);
    if honest {
      assert o == m;
    } else if OneRecipient(k, m) {
      assert DeliveryKey(o) == DeliveryKey(m);
    }
  }

  /** Every OK ack a core ever signed is for a message it had already appended. */
  lemma NoEarlyOk(w: Wire, k: Crypto, honest: bool, start: State, run: seq<Action>, x: SignedAck)
    requires WireOk(w) && Init(start) && Possible(w, k, honest, start, run)
    requires x in After(w, k, honest, start, run).history.signed && x.ack.status == ACK_OK
    ensures Delivered(k, honest, After(w, k, honest, start, run).history, x.core, x.target,
                      x.ack.sender, x.ack.senderMsgId, x.ack.messageId)
  {
    InitInv(w, k, honest, start);
    RunInv(w, k, honest, start, run);
  }

  /** At any time at most one delivery per key is under way on a core. */
  lemma OneDeliveryPerKey(w: Wire, k: Crypto, honest: bool, start: State, run: seq<Action>, c: Bytes, x: Handler,
                          y: Handler)
    requires WireOk(w) && Init(start) && Possible(w, k, honest, start, run)
    requires var s := After(w, k, honest, start, run);
             c in s.cores && x in s.cores[c].handlers && y in s.cores[c].handlers &&
               DeliveryKey(x.message) == DeliveryKey(y.message)
    ensures x == y && After(w, k, honest, start, run).cores[c].handlers[x] == 1
  {
    InitInv(w, k, honest, start);
    RunInv(w, k, honest, start, run);
    var s := After(w, k, honest, start, run);
    assert HandlerOk(k, honest, s.history, c, s.cores[c], x);
  }

  /** A core never accepts two messages of an account under one sequence number, and only
      messages the account signed. */
  lemma OneMessagePerNumber(w: Wire, k: Crypto, honest: bool, start: State, run: seq<Action>, c: Bytes,
                            a: DirectMessage, b: DirectMessage)
    requires WireOk(w) && Init(start) && Possible(w, k, honest, start, run)
    requires var h := After(w, k, honest, start, run).history; (c, a) in h.accepted && (c, b) in h.accepted
    requires a.sender == b.sender && a.senderMsgId == b.senderMsgId
    ensures a == b && k.accountSigned(a)
  {
    InitInv(w, k, honest, start);
    RunInv(w, k, honest, start, run);
  }

  /** A key stands for a message its account signed and, on a network that injects nothing no
      core accepted, one that some core accepted. */
  ghost predicate Authored(k: Crypto, honest: bool, h: History, key: Bytes) {
    exists c, m :: AuthoredBy(k, honest, h, key, c, m)
  }

  ghost predicate AuthoredBy(k: Crypto, honest: bool, h: History, key: Bytes, c: Bytes, m: DirectMessage) {
    k.accountSigned(m) && DeliveryKey(m) == key && (honest ==> (c, m) in h.accepted)
  }

  ghost predicate MailboxOk(k: Crypto, honest: bool, h: History) {
    forall d, key :: (d, key) in h.mailbox ==> Authored(k, honest, h, key)
  }

  /** Nothing unaccepted, nothing put into a mailbox. */
  ghost predicate Quiet(h: History, g: History) {
    h.accepted <= g.accepted && g.mailbox == h.mailbox
  }

  lemma SubmitQuiet(w: Wire, k: Crypto, s: State, c: Bytes, m: DirectMessage)
    requires c in s.cores
    ensures Quiet(s.history, Submit(w, k, s, c, m).history)
  {
  }

  lemma ReceiveDirectQuiet(w: Wire, k: Crypto, s: State, p: Packet)
    requires p.target in s.cores
    ensures Quiet(s.history, ReceiveDirect(w, k, s, p).history)
  {
  }

  lemma AbandonQuiet(w: Wire, k: Crypto, s: State, c: Bytes, h: Handler, code: Bytes, ms: u64)
    requires c in s.cores
    ensures Quiet(s.history, Abandon(w, k, s, c, h, code, ms).history)
  {
  }

  lemma CompleteQuiet(w: Wire, k: Crypto, s: State, c: Bytes, h: Handler)
    requires c in s.cores
    ensures Quiet(s.history, Complete(w, k, s, c, h).history)
  {
  }

  lemma ReceiveAckQuiet(w: Wire, k: Crypto, s: State, p: Packet)
    requires p.target in s.cores
    ensures Quiet(s.history, ReceiveAck(w, k, s, p).history)
  {
  }

  /** Only an append adds to a mailbox. */
  lemma StepQuiet(w: Wire, k: Crypto, honest: bool, s: State, a: Action)
    requires Enabled(w, k, honest, s, a) && !a.DoAppend?
    ensures Quiet(s.history, Apply(w, k, honest, s, a).history)
  {
    match a
    case DoSubmit(c, m) => SubmitQuiet(w, k, s, c, m);
    case DoReceiveDirect(p) => ReceiveDirectQuiet(w, k, s, p);
    case DoAbandon(c, h, code, ms) => AbandonQuiet(w, k, s, c, h, code, ms);
    case DoComplete(c, h) => CompleteQuiet(w, k, s, c, h);
    case DoReceiveAck(p) => ReceiveAckQuiet(w, k, s, p);
    case _ =>
  }

  lemma AuthoredGrows(k: Crypto, honest: bool, h: History, g: History, key: Bytes)
    requires Authored(k, honest, h, key) && h.accepted <= g.accepted
    ensures Authored(k, honest, g, key)
  {
    var c, m :| AuthoredBy(k, honest, h, key, c, m);
    assert AuthoredBy(k, honest, g, key, c, m);
  }

  lemma MailboxKept(k: Crypto, honest: bool, h: History, g: History)
    requires MailboxOk(k, honest, h) && Quiet(h, g)
    ensures MailboxOk(k, honest, g)
  {
    forall d, key | (d, key) in g.mailbox ensures Authored(k, honest, g, key) {
      assert (d, key) in h.mailbox;
      AuthoredGrows(k, honest, h, g, key);
    }
  }

  lemma MailboxAppend(k: Crypto, honest: bool, h: History, c: Bytes, x: Handler)
    requires MailboxOk(k, honest, h) && k.accountSigned(x.message) && (honest ==> (x.source, x.message) in h.accepted)
    ensures MailboxOk(k, honest, h.(mailbox := h.mailbox + {(c, DeliveryKey(x.message))}))
  {
    var g := h.(mailbox := h.mailbox + {(c, DeliveryKey(x.message))});
    forall d, key | (d, key) in g.mailbox ensures Authored(k, honest, g, key) {
      if (d, key) in h.mailbox {
        AuthoredGrows(k, honest, h, g, key);
      } else {
        assert AuthoredBy(k, honest, g, key, x.source, x.message);
      }
    }
  }

  lemma StepMailbox(w: Wire, k: Crypto, honest: bool, s: State, a: Action)
    requires Inv(w, k, honest, s) && Enabled(w, k, honest, s, a) && MailboxOk(k, honest, s.history)
    ensures MailboxOk(k, honest, Apply(w, k, honest, s, a).history)
  {
    if a.DoAppend? {
      assert HandlerOk(k, honest, s.history, a.c, s.cores[a.c], a.h);
      MailboxAppend(k, honest, s.history, a.c, a.h);
    } else {
      StepQuiet(w, k, honest, s, a);
      MailboxKept(k, honest, s.history, Apply(w, k, honest, s, a).history);
    }
  }

  lemma {:induction false} RunMailbox(w: Wire, k: Crypto, honest: bool, s: State, run: seq<Action>)
    requires WireOk(w) && Inv(w, k, honest, s) && Possible(w, k, honest, s, run) && MailboxOk(k, honest, s.history)
    ensures MailboxOk(k, honest, After(w, k, honest, s, run).history)
    decreases run
  {
    if run != [] {
      StepInv(w, k, honest, s, run[0]);
      StepMailbox(w, k, honest, s, run[0]);
      RunMailbox(w, k, honest, Apply(w, k, honest, s, run[0]), run[1..]);
    }
  }

  /** The other half of safety: whatever is in a mailbox was signed by its sender and, on a
      network that injects nothing no core accepted, accepted by a core first. */
  lemma NothingInvented(w: Wire, k: Crypto, honest: bool, start: State, run: seq<Action>, d: Bytes, key: Bytes)
    requires WireOk(w) && Init(start) && Possible(w, k, honest, start, run)
    requires (d, key) in After(w, k, honest, start, run).history.mailbox
    ensures Authored(k, honest, After(w, k, honest, start, run).history, key)
  {
    InitInv(w, k, honest, start);
    RunMailbox(w, k, honest, start, run);
  }

  // ---------------------------------------------------------------- progress

  /** Two cores, or one and the same, are in a position to exchange `m`: accounts bound, the
      next id free, the key unknown to the recipient's window, and the recipient able to sign
      what `c` can verify. */
  ghost predicate CanExchange(w: Wire, k: Crypto, s: State, c: Bytes, d: Bytes, m: DirectMessage) {
    && c in s.cores && d in s.cores && c != [] && d != []
    && CoreFor(s.cores[c].bindings, m.sender) == Some(c) && CoreFor(s.cores[c].bindings, m.recipient) == Some(d)
    && CanReceive(w, k, s, c, d, m)
    && w.putDirect(c, m).Some? && ValidMessageId(m.messageId)
    && Key(m.sender, m.messageId) !in s.cores[c].store.accepted
    && m.senderMsgId == NextId(s.cores[c].store, m.sender) < LAST_ID
    && CanAck(w, k, d, c, DirectAck(m, ACK_OK, [], 0))
  }

  /** The core `d` would start delivering `m` if `c` sent it. */
  ghost predicate CanReceive(w: Wire, k: Crypto, s: State, c: Bytes, d: Bytes, m: DirectMessage) {
    && d in s.cores && c != [] && k.accountSigned(m) && w.putDirect(c, m).Some?
    && CoreFor(s.cores[d].bindings, m.sender) == Some(c) && CoreFor(s.cores[d].bindings, m.recipient) == Some(d)
    && DeliveryKey(m) !in s.cores[d].replay.entries
  }

  ghost predicate CanAck(w: Wire, k: Crypto, core: Bytes, target: Bytes, ack: MessageAck) {
    && w.ackPayload(core, target, ack).Some?
    && var payload := w.ackPayload(core, target, ack).value;
       var signature := k.sign(core, payload);
       signature != [] && k.coreSigned(core, payload, signature) && w.putAck(core, ack.(signature := signature)).Some?
  }

  ghost function AckData(w: Wire, k: Crypto, core: Bytes, target: Bytes, ack: MessageAck): Bytes
    requires CanAck(w, k, core, target, ack)
  {
    w.putAck(core, ack.(signature := k.sign(core, w.ackPayload(core, target, ack).value))).value
  }

  /** The sender's core holds a job for `m`, addressed to `d`. */
  ghost predicate HasJob(s: State, c: Bytes, d: Bytes, m: DirectMessage) {
    && c in s.cores && Key(m.sender, m.messageId) in s.cores[c].store.accepted
    && var job := s.cores[c].store.accepted[Key(m.sender, m.messageId)];
       job.target == d && job.senderMsgId == m.senderMsgId
  }

  /** Same stores, same mailboxes. */
  ghost predicate StoresKept(s: State, t: State) {
    && t.cores.Keys == s.cores.Keys && t.history.mailbox == s.history.mailbox
    && forall o :: o in s.cores ==> t.cores[o].store == s.cores[o].store
  }

  lemma SubmitPosts(w: Wire, k: Crypto, s: State, c: Bytes, d: Bytes, m: DirectMessage)
    requires CanExchange(w, k, s, c, d, m)
    ensures var t := Submit(w, k, s, c, m);
            && Packet(d, w.putDirect(c, m).value) in t.net && t.history.mailbox == s.history.mailbox
            && t.cores.Keys == s.cores.Keys && HasJob(t, c, d, m)
            && forall o :: o in s.cores ==> t.cores[o] == s.cores[o].(store := t.cores[o].store)
  {
  }

  lemma ReceiveStarts(w: Wire, k: Crypto, s: State, c: Bytes, d: Bytes, m: DirectMessage)
    requires WireOk(w) && CanReceive(w, k, s, c, d, m)
    ensures var t := ReceiveDirect(w, k, s, Packet(d, w.putDirect(c, m).value));
            t.cores.Keys == s.cores.Keys && Handler(c, m, false) in t.cores[d].handlers && StoresKept(s, t)
  {
    W.PruneSubset(s.cores[d].replay, s.cores[d].clock, DeliveryKey(m));
  }

  lemma CompleteAcks(w: Wire, k: Crypto, s: State, d: Bytes, h: Handler)
    requires d in s.cores && h.source != [] && CanAck(w, k, d, h.source, DirectAck(h.message, ACK_OK, [], 0))
    ensures var t := Complete(w, k, s, d, h);
            && Packet(h.source, AckData(w, k, d, h.source, DirectAck(h.message, ACK_OK, [], 0))) in t.net
            && StoresKept(s, t)
  {
  }

  lemma AckCloses(w: Wire, k: Crypto, s: State, c: Bytes, d: Bytes, m: DirectMessage)
    requires WireOk(w) && HasJob(s, c, d, m) && CanAck(w, k, d, c, DirectAck(m, ACK_OK, [], 0))
    ensures var t := ReceiveAck(w, k, s, Packet(c, AckData(w, k, d, c, DirectAck(m, ACK_OK, [], 0))));
            ClosedOk(t, c, Key(m.sender, m.messageId)) && t.history == s.history
  {
    var ack := DirectAck(m, ACK_OK, [], 0);
    var signed := ack.(signature := k.sign(d, w.ackPayload(d, c, ack).value));
    assert SameButSignature(signed, ack);
    assert w.ackPayload(d, c, signed) == w.ackPayload(d, c, ack);
  }

  /** From the packet on: received, appended, completed, acknowledged. */
  function DeliveryRun(w: Wire, c: Bytes, d: Bytes, m: DirectMessage, reply: Packet): seq<Action>
    requires w.putDirect(c, m).Some?
  {
    [DoReceiveDirect(Packet(d, w.putDirect(c, m).value))] +
    [DoAppend(d, Handler(c, m, false)), DoComplete(d, Handler(c, m, true)), DoReceiveAck(reply)]
  }

  /** The guarantee is not empty: when cores can exchange a message, submitting it, receiving
      it, appending it, completing it and receiving the ack is a possible run, and it ends with
      the job recorded as OK and the message in the recipient's mailbox. The two accounts may
      be bound to one core. */
  lemma DeliveryCompletes(w: Wire, k: Crypto, honest: bool, s: State, c: Bytes, d: Bytes, m: DirectMessage)
    requires WireOk(w) && CanExchange(w, k, s, c, d, m)
    ensures var reply := Packet(c, AckData(w, k, d, c, DirectAck(m, ACK_OK, [], 0)));
            var run := [DoSubmit(c, m)] + DeliveryRun(w, c, d, m, reply);
            && Possible(w, k, honest, s, run)
            && ClosedOk(After(w, k, honest, s, run), c, Key(m.sender, m.messageId))
            && After(w, k, honest, s, run).history.mailbox == s.history.mailbox + {(d, DeliveryKey(m))}
  {
    var reply := Packet(c, AckData(w, k, d, c, DirectAck(m, ACK_OK, [], 0)));
    SubmitPosts(w, k, s, c, d, m);
    DeliveryOf(w, k, honest, Submit(w, k, s, c, m), c, d, m);
    OneStep(w, k, honest, s, DoSubmit(c, m), DeliveryRun(w, c, d, m, reply));
  }

  lemma ReceivedAnswerable(w: Wire, k: Crypto, s: State, c: Bytes, d: Bytes, m: DirectMessage)
    requires WireOk(w) && CanReceive(w, k, s, c, d, m) && HasJob(s, c, d, m) &&
      CanAck(w, k, d, c, DirectAck(m, ACK_OK, [], 0))
    ensures var t := ReceiveDirect(w, k, s, Packet(d, w.putDirect(c, m).value));
            Answerable(w, k, t, c, d, m, Handler(c, m, false)) && t.history.mailbox == s.history.mailbox
  {
    ReceiveStarts(w, k, s, c, d, m);
  }

  /** A packet on its way to a core that can receive it can be carried to its end, and closes
      the sender's job of the same sender, number and id. */
  lemma DeliveryOf(w: Wire, k: Crypto, honest: bool, s: State, c: Bytes, d: Bytes, m: DirectMessage)
    requires WireOk(w) && CanReceive(w, k, s, c, d, m) && Packet(d, w.putDirect(c, m).value) in s.net
    requires HasJob(s, c, d, m) && CanAck(w, k, d, c, DirectAck(m, ACK_OK, [], 0))
    ensures var reply := Packet(c, AckData(w, k, d, c, DirectAck(m, ACK_OK, [], 0)));
            var run := DeliveryRun(w, c, d, m, reply);
            && Possible(w, k, honest, s, run)
            && ClosedOk(After(w, k, honest, s, run), c, Key(m.sender, m.messageId))
            && After(w, k, honest, s, run).history.mailbox == s.history.mailbox + {(d, DeliveryKey(m))}
  {
    var direct := Packet(d, w.putDirect(c, m).value);
    var reply := Packet(c, AckData(w, k, d, c, DirectAck(m, ACK_OK, [], 0)));
    var rest := [DoAppend(d, Handler(c, m, false)), DoComplete(d, Handler(c, m, true)), DoReceiveAck(reply)];
    ReceivedAnswerable(w, k, s, c, d, m);
    DeliveryEnds(w, k, honest, ReceiveDirect(w, k, s, direct), c, d, m);
    OneStep(w, k, honest, s, DoReceiveDirect(direct), rest);
  }

  /** What a delivery under way still needs: its handler, and the job at the sender. */
  ghost predicate Answerable(w: Wire, k: Crypto, s: State, c: Bytes, d: Bytes, m: DirectMessage, h: Handler) {
    && d in s.cores && c != [] && h in s.cores[d].handlers
    && CanAck(w, k, d, c, DirectAck(m, ACK_OK, [], 0)) && HasJob(s, c, d, m)
  }

  /** A granted delivery can be carried to its end. */
  lemma DeliveryEnds(w: Wire, k: Crypto, honest: bool, s: State, c: Bytes, d: Bytes, m: DirectMessage)
    requires WireOk(w) && Answerable(w, k, s, c, d, m, Handler(c, m, false))
    ensures var reply := Packet(c, AckData(w, k, d, c, DirectAck(m, ACK_OK, [], 0)));
            var run := [DoAppend(d, Handler(c, m, false)), DoComplete(d, Handler(c, m, true)), DoReceiveAck(reply)];
            && Possible(w, k, honest, s, run)
            && ClosedOk(After(w, k, honest, s, run), c, Key(m.sender, m.messageId))
            && After(w, k, honest, s, run).history.mailbox == s.history.mailbox + {(d, DeliveryKey(m))}
  {
    var reply := Packet(c, AckData(w, k, d, c, DirectAck(m, ACK_OK, [], 0)));
    var h := Handler(c, m, false);
    var s1 := Append(s, d, h);
    assert s1.cores[c].store == s.cores[c].store;
    assert Answerable(w, k, s1, c, d, m, Handler(c, m, true));
    AnswerEnds(w, k, honest, s1, c, d, m);
    OneStep(w, k, honest, s, DoAppend(d, h), [DoComplete(d, Handler(c, m, true)), DoReceiveAck(reply)]);
  }

  lemma CompletedClosable(w: Wire, k: Crypto, s: State, c: Bytes, d: Bytes, m: DirectMessage)
    requires Answerable(w, k, s, c, d, m, Handler(c, m, true))
    ensures var t := Complete(w, k, s, d, Handler(c, m, true));
            && Packet(c, AckData(w, k, d, c, DirectAck(m, ACK_OK, [], 0))) in t.net
            && HasJob(t, c, d, m) && t.history.mailbox == s.history.mailbox
  {
    CompleteAcks(w, k, s, d, Handler(c, m, true));
  }

  /** An appended delivery is acknowledged and the sender's job closed. */
  lemma AnswerEnds(w: Wire, k: Crypto, honest: bool, s: State, c: Bytes, d: Bytes, m: DirectMessage)
    requires WireOk(w) && Answerable(w, k, s, c, d, m, Handler(c, m, true))
    ensures var reply := Packet(c, AckData(w, k, d, c, DirectAck(m, ACK_OK, [], 0)));
            var run := [DoComplete(d, Handler(c, m, true)), DoReceiveAck(reply)];
            && Possible(w, k, honest, s, run)
            && ClosedOk(After(w, k, honest, s, run), c, Key(m.sender, m.messageId))
            && After(w, k, honest, s, run).history.mailbox == s.history.mailbox
  {
    var reply := Packet(c, AckData(w, k, d, c, DirectAck(m, ACK_OK, [], 0)));
    var done := Handler(c, m, true);
    CompletedClosable(w, k, s, c, d, m);
    var s2 := Complete(w, k, s, d, done);
    AckCloses(w, k, s2, c, d, m);
    OneStep(w, k, honest, s2, DoReceiveAck(reply), []);
    OneStep(w, k, honest, s, DoComplete(d, done), [DoReceiveAck(reply)]);
  }

  lemma OneStep(w: Wire, k: Crypto, honest: bool, s: State, a: Action, rest: seq<Action>)
    requires Enabled(w, k, honest, s, a) && Possible(w, k, honest, Apply(w, k, honest, s, a), rest)
    ensures Possible(w, k, honest, s, [a] + rest)
    ensures After(w, k, honest, s, [a] + rest) == After(w, k, honest, Apply(w, k, honest, s, a), rest)
  {
    assert ([a] + rest)[1..] == rest;
  }

  // ------------------------------------------------- one recipient per message

  lemma KeyNamesRecipient(a: DirectMessage, b: DirectMessage)
    requires a.sender == b.sender && a.messageId == b.messageId && DeliveryKey(a) == DeliveryKey(b)
    ensures a.recipient == b.recipient
  {
    var x, y := DeliveryKey(a), DeliveryKey(b);
    assert |a.recipient| == |b.recipient|;
    assert x[..|a.recipient|] == a.recipient && y[..|a.recipient|] == b.recipient;
  }

  /** The two messages: the same sender, number and id, for different recipients. */
  ghost predicate Twins(m: DirectMessage, o: DirectMessage) {
    o.sender == m.sender && o.senderMsgId == m.senderMsgId && o.messageId == m.messageId && o.recipient != m.recipient
  }

  /** A message no core accepted is injected and delivered, and closes a job it has nothing to
      do with but the sender, the number and the id. */
  lemma InjectedDelivery(w: Wire, k: Crypto, s: State, c: Bytes, d: Bytes, o: DirectMessage)
    requires WireOk(w) && HasJob(s, c, d, o) && CanReceive(w, k, s, c, d, o) &&
      CanAck(w, k, d, c, DirectAck(o, ACK_OK, [], 0))
    ensures var reply := Packet(c, AckData(w, k, d, c, DirectAck(o, ACK_OK, [], 0)));
            var run := [DoInject(Packet(d, w.putDirect(c, o).value))] + DeliveryRun(w, c, d, o, reply);
            && Possible(w, k, false, s, run)
            && ClosedOk(After(w, k, false, s, run), c, Key(o.sender, o.messageId))
            && After(w, k, false, s, run).history.mailbox == s.history.mailbox + {(d, DeliveryKey(o))}
  {
    var reply := Packet(c, AckData(w, k, d, c, DirectAck(o, ACK_OK, [], 0)));
    var injected := Packet(d, w.putDirect(c, o).value);
    DeliveryOf(w, k, false, s.(net := s.net + multiset{injected}), c, d, o);
    OneStep(w, k, false, s, DoInject(injected), DeliveryRun(w, c, d, o, reply));
  }

  /** Where messages no core accepted are injected, one recipient per signed number and id is
      needed as well as enough. Take any two messages an account signed under one number and id
      for different recipients, both bound to one core: submit the one, inject the other, let it
      be delivered, and the job of the first is recorded as OK although nothing was appended for
      its recipient. */
  lemma TwoRecipientsMislead(w: Wire, k: Crypto, s: State, c: Bytes, d: Bytes, m: DirectMessage, o: DirectMessage)
    requires WireOk(w) && CanExchange(w, k, s, c, d, m) && CanReceive(w, k, s, c, d, o) && Twins(m, o)
    requires (d, DeliveryKey(m)) !in s.history.mailbox
    ensures !OneRecipient(k, m)
    ensures var reply := Packet(c, AckData(w, k, d, c, DirectAck(m, ACK_OK, [], 0)));
            var run := [DoSubmit(c, m)] +
              ([DoInject(Packet(d, w.putDirect(c, o).value))] + DeliveryRun(w, c, d, o, reply));
            && Possible(w, k, false, s, run)
            && ClosedOk(After(w, k, false, s, run), c, Key(m.sender, m.messageId))
            && (d, DeliveryKey(m)) !in After(w, k, false, s, run).history.mailbox
  {
    var reply := Packet(c, AckData(w, k, d, c, DirectAck(m, ACK_OK, [], 0)));
    assert DirectAck(o, ACK_OK, [], 0) == DirectAck(m, ACK_OK, [], 0);
    if DeliveryKey(m) == DeliveryKey(o) { KeyNamesRecipient(m, o); }
    SubmitPosts(w, k, s, c, d, m);
    InjectedDelivery(w, k, Submit(w, k, s, c, m), c, d, o);
    OneStep(w, k, false, s, DoSubmit(c, m),
            [DoInject(Packet(d, w.putDirect(c, o).value))] + DeliveryRun(w, c, d, o, reply));
  }
}
