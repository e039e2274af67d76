/** What cores answer and send, packet by packet, and the runs in which a lost packet is made good. */
module Exchange {
  import opened Framing
  import opened MessageCodec
  import opened AcceptanceStore
  import opened Retry
  import opened Protocol
  import D = AcceptanceDb
  import O = DeliverOnce
  import S = DurableDelivery
  import W = ReplayWindow
  import X = DirectDelivery

  // ---------------------------------------------------------- sending an ack

  /** The network gains this one packet. */
  ghost predicate Gains(s: State, t: State, p: Packet) {
    t.net == s.net + multiset{p}
  }

  lemma AckPosted(w: Wire, k: Crypto, s: State, core: Bytes, target: Bytes, ack: MessageAck)
    requires target != [] && CanAck(w, k, core, target, ack)
    ensures var t := SendAck(w, k, s, core, target, ack);
      && Gains(s, t, Packet(target, AckData(w, k, core, target, ack)))
      && t.cores == s.cores && t.history.mailbox == s.history.mailbox && t.history.accepted == s.history.accepted
      && t.history.signed == s.history.signed + {SignedAck(core, target, ack)}
  {
  }

  /** Without a core to answer, a payload to sign or a signature, no ack is sent. */
  lemma AckUnsent(w: Wire, k: Crypto, s: State, core: Bytes, target: Bytes, ack: MessageAck)
    requires target == [] || w.ackPayload(core, target, ack) == None
             || k.sign(core, w.ackPayload(core, target, ack).value) == []
    ensures SendAck(w, k, s, core, target, ack) == s
  {
  }

  // ------------------------------------------------- receiving a Direct message

  /** The core `d` takes a message of `m.sender` from `c`: signed, and the sender bound there. */
  ghost predicate Heard(w: Wire, k: Crypto, s: State, c: Bytes, d: Bytes, m: DirectMessage) {
    && d in s.cores && c != [] && k.accountSigned(m) && w.putDirect(c, m).Some?
    && CoreFor(s.cores[d].bindings, m.sender) == Some(c)
  }

  ghost predicate HeardHere(w: Wire, k: Crypto, s: State, c: Bytes, d: Bytes, m: DirectMessage) {
    Heard(w, k, s, c, d, m) && CoreFor(s.cores[d].bindings, m.recipient) == Some(d)
  }

  ghost function Direct(w: Wire, c: Bytes, d: Bytes, m: DirectMessage): Packet
    requires w.putDirect(c, m).Some?
  {
    Packet(d, w.putDirect(c, m).value)
  }

  /** The packet is taken and this ack is sent back; nothing is delivered or stored. */
  ghost predicate AnsweredWith(w: Wire, k: Crypto, s: State, t: State, p: Packet, c: Bytes, d: Bytes, ack: MessageAck)
    requires CanAck(w, k, d, c, ack)
  {
    && t.net == s.net - multiset{p} + multiset{Packet(c, AckData(w, k, d, c, ack))}
    && t.cores.Keys == s.cores.Keys && d in s.cores && t.cores[d].handlers == s.cores[d].handlers
    && StoresKept(s, t)
  }

  /** What is asked of the window when a message is heard where its recipient lives. */
  lemma HeardStarts(w: Wire, k: Crypto, s: State, c: Bytes, d: Bytes, m: DirectMessage)
    requires WireOk(w) && HeardHere(w, k, s, c, d, m)
    ensures var p := Direct(w, c, d, m);
      ReceiveDirect(w, k, s, p) == StartDelivery(w, k, s.(net := s.net - multiset{p}), d, c, m)
  {
  }

  lemma StartAnswers(w: Wire, k: Crypto, s: State, c: Bytes, d: Bytes, m: DirectMessage, ack: MessageAck)
    requires d in s.cores && c != [] && CanAck(w, k, d, c, ack)
    requires match W.Begin(s.cores[d].replay, DeliveryKey(m), s.cores[d].clock).1
      case Duplicate => ack == DirectAck(m, ACK_OK, [], 0)
      case InProgress => ack == DirectAck(m, ACK_RETRYABLE, Ascii("DIRECT_DELIVERY_IN_PROGRESS"), 100)
      case Granted => false
    ensures var t := StartDelivery(w, k, s, d, c, m);
      && Gains(s, t, Packet(c, AckData(w, k, d, c, ack))) && t.cores.Keys == s.cores.Keys
      && t.cores[d].handlers == s.cores[d].handlers && StoresKept(s, t)
  {
    var core := s.cores[d].(replay := W.Step(s.cores[d].replay, W.Begins(DeliveryKey(m), s.cores[d].clock)));
    AckPosted(w, k, WithCore(s, d, core), d, c, ack);
  }

  /** A message that was delivered within the window's lifetime is answered OK, and not delivered
      again. */
  lemma DuplicateAnswered(w: Wire, k: Crypto, s: State, c: Bytes, d: Bytes, m: DirectMessage, expires: int)
    requires WireOk(w) && HeardHere(w, k, s, c, d, m) && CanAck(w, k, d, c, DirectAck(m, ACK_OK, [], 0))
    requires W.Inv(s.cores[d].replay, s.cores[d].clock) && s.cores[d].clock < expires
    requires DeliveryKey(m) in s.cores[d].replay.entries
    requires s.cores[d].replay.entries[DeliveryKey(m)] == W.Committed(expires)
    ensures AnsweredWith(w, k, s, ReceiveDirect(w, k, s, Direct(w, c, d, m)), Direct(w, c, d, m), c, d,
                         DirectAck(m, ACK_OK, [], 0))
  {
    HeardStarts(w, k, s, c, d, m);
    var e := W.Begins(DeliveryKey(m), s.cores[d].clock);
    W.BeginKeepsCommitted(s.cores[d].replay, e, s.cores[d].clock, DeliveryKey(m), expires);
    StartAnswers(w, k, s.(net := s.net - multiset{Direct(w, c, d, m)}), c, d, m, DirectAck(m, ACK_OK, [], 0));
  }

  /** One that is being delivered is answered with the advice to come back. */
  lemma InProgressAnswered(w: Wire, k: Crypto, s: State, c: Bytes, d: Bytes, m: DirectMessage)
    requires WireOk(w) && HeardHere(w, k, s, c, d, m) && W.Reserved(s.cores[d].replay, DeliveryKey(m))
    requires CanAck(w, k, d, c, DirectAck(m, ACK_RETRYABLE, Ascii("DIRECT_DELIVERY_IN_PROGRESS"), 100))
    ensures AnsweredWith(w, k, s, ReceiveDirect(w, k, s, Direct(w, c, d, m)), Direct(w, c, d, m), c, d,
                         DirectAck(m, ACK_RETRYABLE, Ascii("DIRECT_DELIVERY_IN_PROGRESS"), 100))
  {
    HeardStarts(w, k, s, c, d, m);
    W.ReservedUntilFinish(s.cores[d].replay, [], DeliveryKey(m), s.cores[d].clock);
    StartAnswers(w, k, s.(net := s.net - multiset{Direct(w, c, d, m)}), c, d, m,
                 DirectAck(m, ACK_RETRYABLE, Ascii("DIRECT_DELIVERY_IN_PROGRESS"), 100));
  }

  /** One whose recipient does not live here is answered so, and the window is not asked. */
  lemma MovedAnswered(w: Wire, k: Crypto, s: State, c: Bytes, d: Bytes, m: DirectMessage)
    requires WireOk(w) && Heard(w, k, s, c, d, m) && CoreFor(s.cores[d].bindings, m.recipient) != Some(d)
    requires CanAck(w, k, d, c, DirectAck(m, ACK_RETRYABLE, Ascii("RECIPIENT_MOVED"), 0))
    ensures var t := ReceiveDirect(w, k, s, Direct(w, c, d, m));
      && AnsweredWith(w, k, s, t, Direct(w, c, d, m), c, d, DirectAck(m, ACK_RETRYABLE, Ascii("RECIPIENT_MOVED"), 0))
      && t.cores == s.cores
  {
    AckPosted(w, k, s.(net := s.net - multiset{Direct(w, c, d, m)}), d, c,
              DirectAck(m, ACK_RETRYABLE, Ascii("RECIPIENT_MOVED"), 0));
  }

  /** One that its account did not sign, or that does not come from the sender's core, is dropped
      without an answer. */
  lemma StrangerIgnored(w: Wire, k: Crypto, s: State, c: Bytes, d: Bytes, m: DirectMessage)
    requires WireOk(w) && d in s.cores && w.putDirect(c, m).Some?
    requires !k.accountSigned(m) || c == [] || CoreFor(s.cores[d].bindings, m.sender) != Some(c)
    ensures ReceiveDirect(w, k, s, Direct(w, c, d, m)) == s.(net := s.net - multiset{Direct(w, c, d, m)})
  {
  }

  /** A delivery that fails is answered with the reason and the advice, and its key is free again. */
  lemma AbandonAnswers(w: Wire, k: Crypto, s: State, d: Bytes, h: Handler, code: Bytes, ms: u64)
    requires d in s.cores && h in s.cores[d].handlers && h.source != []
    requires W.Reserved(s.cores[d].replay, DeliveryKey(h.message))
    requires CanAck(w, k, d, h.source, DirectAck(h.message, ACK_RETRYABLE, code, ms))
    ensures var t := Abandon(w, k, s, d, h, code, ms);
      && Gains(s, t, Packet(h.source, AckData(w, k, d, h.source, DirectAck(h.message, ACK_RETRYABLE, code, ms))))
      && t.cores.Keys == s.cores.Keys && StoresKept(s, t)
      && t.cores[d].handlers == s.cores[d].handlers - multiset{h}
      && DeliveryKey(h.message) !in t.cores[d].replay.entries
      && t.cores[d].bindings == s.cores[d].bindings && t.cores[d].clock == s.cores[d].clock
  {
    var replay := W.Step(s.cores[d].replay, W.Finishes(DeliveryKey(h.message), false, s.cores[d].clock));
    var core := s.cores[d].(replay := replay, handlers := s.cores[d].handlers - multiset{h});
    AckPosted(w, k, WithCore(s, d, core), d, h.source, DirectAck(h.message, ACK_RETRYABLE, code, ms));
  }

  // --------------------------------------------------------- receiving an ack

  /** An ack that its source did not sign, or one for a topic fan-out, closes nothing. */
  lemma StrangeAckIgnored(w: Wire, k: Crypto, s: State, p: Packet)
    requires p.target in s.cores
    requires w.ackOf(p.data).Some? ==>
      var (source, ack) := w.ackOf(p.data).value;
      var payload := w.ackPayload(source, p.target, ack);
      || payload == None || ack.signature == [] || !k.coreSigned(source, payload.value, ack.signature)
      || ack.original == TOPIC_FANOUT || ack.original == TOPIC_KEY_FANOUT
    ensures ReceiveAck(w, k, s, p) == s.(net := s.net - multiset{p})
  {
  }

  /** A retryable ack leaves the job open, for the next pass to list. */
  lemma RetryAckKeepsOpen(w: Wire, k: Crypto, s: State, c: Bytes, d: Bytes, m: DirectMessage, job: Accepted,
                          code: Bytes,
                          ms: u64)
    requires WireOk(w) && OpenJob(w, s, c, d, m, job) && StoreOk(s.cores[c].store)
    requires CanAck(w, k, d, c, DirectAck(m, ACK_RETRYABLE, code, ms))
    ensures var t := ReceiveAck(w, k, s, Packet(c, AckData(w, k, d, c, DirectAck(m, ACK_RETRYABLE, code, ms))));
      c in t.cores && OpenJob(w, t, c, d, m, job.(status := ACK_RETRYABLE))
  {
    var ack := DirectAck(m, ACK_RETRYABLE, code, ms);
    var signed := ack.(signature := k.sign(d, w.ackPayload(d, c, ack).value));
    assert SameButSignature(signed, ack);
    assert w.ackPayload(d, c, signed) == w.ackPayload(d, c, ack);
    AckExact(s.cores[c].store, m.sender, m.messageId, ACK_RETRYABLE);
    assert RecordOk(s.cores[c].store, Key(m.sender, m.messageId));
  }

  /** A restart keeps the jobs, and nothing of what was under way. */
  lemma RestartKeepsJobs(s: State, c: Bytes)
    requires c in s.cores
    ensures var t := Restart(s, c);
      && t.cores.Keys == s.cores.Keys && t.net == s.net && t.history == s.history
      && t.cores[c].store == s.cores[c].store && t.cores[c].listed == {} && t.cores[c].handlers == multiset{}
      && t.cores[c].replay.entries == map[] && t.cores[c].bindings == s.cores[c].bindings
      && forall d :: d in s.cores && d != c ==> t.cores[d] == s.cores[d]
  {
  }

  // -------------------------------------------------------------- submitting

  /** A message its account did not sign, of an account not bound here, for a recipient who is
      bound nowhere, or too large to send, is refused without a trace. */
  lemma SubmitRefused(w: Wire, k: Crypto, s: State, c: Bytes, m: DirectMessage)
    requires c in s.cores
    requires !k.accountSigned(m) || CoreFor(s.cores[c].bindings, m.sender) != Some(c)
             || CoreFor(s.cores[c].bindings, m.recipient) == None || w.putDirect(c, m) == None
    ensures Submit(w, k, s, c, m) == s
  {
  }

  /** The core has filed this job for the message, and it is open. */
  ghost predicate OpenJob(w: Wire, s: State, c: Bytes, d: Bytes, m: DirectMessage, job: Accepted) {
    && HasJob(s, c, d, m) && job == s.cores[c].store.accepted[Key(m.sender, m.messageId)] && !job.final
    && w.putDirect(c, m) == Some(job.data)
  }

  /** Submitting a message again sends it again, to where its recipient lives now, as long as its
      job is open; when it is closed nothing is sent. It is accepted once only. */
  lemma SubmitAgain(w: Wire, k: Crypto, s: State, c: Bytes, m: DirectMessage, now: Bytes)
    requires c in s.cores && k.accountSigned(m) && w.putDirect(c, m).Some? && ValidMessageId(m.messageId)
    requires CoreFor(s.cores[c].bindings, m.sender) == Some(c) && CoreFor(s.cores[c].bindings, m.recipient) == Some(now)
    requires Key(m.sender, m.messageId) in s.cores[c].store.accepted
    requires var job := s.cores[c].store.accepted[Key(m.sender, m.messageId)];
      job.senderMsgId == m.senderMsgId && job.digest == k.digest(w.putDirect(c, m).value)
    ensures var job := s.cores[c].store.accepted[Key(m.sender, m.messageId)];
      var t := Submit(w, k, s, c, m);
      && t.net == (if job.final then s.net else s.net + multiset{Packet(now, job.data)})
      && t.history == s.history && t.cores.Keys == s.cores.Keys
  {
  }

  /** The first time, it is filed as an open job for its recipient's core and sent there. */
  lemma SubmitFiles(w: Wire, k: Crypto, s: State, c: Bytes, d: Bytes, m: DirectMessage) returns (job: Accepted)
    requires CanExchange(w, k, s, c, d, m)
    ensures var t := Submit(w, k, s, c, m);
      && Gains(s, t, Direct(w, c, d, m)) && t.history.mailbox == s.history.mailbox
      && t.history.accepted == s.history.accepted + {(c, m)}
      && OpenJob(w, t, c, d, m, job) && t.cores == s.cores[c := s.cores[c].(store := t.cores[c].store)]
  {
    var data := w.putDirect(c, m).value;
    var q := Request(m.sender, m.senderMsgId, m.messageId, k.digest(data), d, data, NoCharge);
    job := NewRecord(q);
    assert Accept(s.cores[c].store, q).Fresh();
  }

  // ---------------------------------------------------------------- retrying

  /** Every job a pass has listed fits the store as it is now. */
  ghost predicate AllFit(core: Core) {
    forall job :: job in core.listed ==> Fits(core.store, job)
  }

  lemma PendingFits(s: Store, job: Accepted)
    requires StoreOk(s) && job in PendingSet(s)
    ensures Fits(s, job)
  {
    var k :| k in s.accepted && !s.accepted[k].final && s.accepted[k] == job;
    assert RecordOk(s, k);
  }

  lemma CallFits(s: Store, call: D.Call, job: Accepted)
    requires StoreOk(s) && Fits(s, job)
    ensures Fits(D.MemStep(s, call), job)
  {
    match call
    case CallAccept(q) => StepFits(s, Op.DoAccept(q), job);
    case CallAck(a, m, id, core, status) => StepFits(s, Op.DoMarkAck(a, m, id, core, status), job);
    case CallPrune(now) => StepFits(s, Op.DoPrune(now), job);
    case CallPending =>
  }

  /** A pass takes jobs off its list, and only a listing puts jobs on it: the pending ones. */
  lemma ListedKept(w: Wire, k: Crypto, honest: bool, s: State, a: Action, c: Bytes)
    requires Enabled(w, k, honest, s, a) && c in s.cores
    ensures var t := Apply(w, k, honest, s, a);
      && c in t.cores
      && if a == DoList(c) then
           t.cores[c].listed == PendingSet(s.cores[c].store) && t.cores[c].store == s.cores[c].store
         else t.cores[c].listed <= s.cores[c].listed
  {
    if a.DoReceiveDirect? || a.DoAbandon? || a.DoComplete? || a.DoAppend? {
      S.DeliveryStore(w, k, honest, s, a, c);
    } else if a.DoSubmit? {
      S.SubmitStore(w, k, s, a.c, a.m, c);
    } else if a.DoRetry? {
      S.RetryStore(w, s, a.c, a.job, c);
    } else if a.DoReceiveAck? {
      S.AckStore(w, k, s, a.p, c);
    }
  }

  lemma StepAllFit(w: Wire, k: Crypto, honest: bool, s: State, a: Action, c: Bytes)
    requires Enabled(w, k, honest, s, a) && c in s.cores && StoreOk(s.cores[c].store) && AllFit(s.cores[c])
    ensures c in Apply(w, k, honest, s, a).cores && AllFit(Apply(w, k, honest, s, a).cores[c])
  {
    ListedKept(w, k, honest, s, a, c);
    S.StepStore(w, k, honest, s, a, c);
    var (core, next) := (s.cores[c], Apply(w, k, honest, s, a).cores[c]);
    var calls := S.CallsOf(w, k, s, a, c);
    forall job | job in next.listed ensures Fits(next.store, job) {
      if a == DoList(c) {
        PendingFits(core.store, job);
      } else if calls != [] {
        CallFits(core.store, calls[0], job);
      }
    }
  }

  lemma {:induction false} RunAllFit(w: Wire, k: Crypto, honest: bool, s: State, run: seq<Action>, c: Bytes)
    requires WireOk(w) && Inv(w, k, honest, s) && Possible(w, k, honest, s, run) && c in s.cores && AllFit(s.cores[c])
    ensures c in After(w, k, honest, s, run).cores && AllFit(After(w, k, honest, s, run).cores[c])
    decreases run
  {
    if run != [] {
      assert CoreInv(w, k, honest, s.history, c, s.cores[c]);
      StepInv(w, k, honest, s, run[0]);
      StepAllFit(w, k, honest, s, run[0], c);
      RunAllFit(w, k, honest, Apply(w, k, honest, s, run[0]), run[1..], c);
    }
  }

  /** In every run, a retry of a listed job sends exactly one packet, the listed data to where the
      job is bound; it sends none exactly if the job is unroutable. */
  lemma RetrySends(w: Wire, k: Crypto, honest: bool, start: State, run: seq<Action>, c: Bytes, job: Accepted)
    requires WireOk(w) && Init(start) && Possible(w, k, honest, start, run) && c in start.cores
    requires c in After(w, k, honest, start, run).cores && job in After(w, k, honest, start, run).cores[c].listed
    ensures var s := After(w, k, honest, start, run);
      var core := s.cores[c];
      var t := RetryJob(w, s, c, job);
      && t.history == s.history && t.cores[c].listed == core.listed - {job}
      && t.net == if Unroutable(w.destination, core.bindings, core.store, job) then s.net
                  else s.net + multiset{Packet(Bound(w.destination, core.bindings, core.store, job), job.data)}
  {
    InitInv(w, k, honest, start);
    RunAllFit(w, k, honest, start, run, c);
    var core := After(w, k, honest, start, run).cores[c];
    RefreshFits(w.destination, core.bindings, core.store, job);
  }

  // ---------------------------------------------------------------- recovery

  /** A pass lists an open job and sends it again. */
  lemma ListAndRetry(w: Wire, k: Crypto, s: State, c: Bytes, d: Bytes, m: DirectMessage, job: Accepted)
    requires OpenJob(w, s, c, d, m, job) && d != []
    requires w.destination(job.data) == Ok(Some(m.recipient)) && CoreFor(s.cores[c].bindings, m.recipient) == Some(d)
    ensures job in ListJobs(s, c).cores[c].listed
    ensures var t := RetryJob(w, ListJobs(s, c), c, job);
      && Gains(s, t, Direct(w, c, d, m)) && t.history == s.history
      && c in t.cores && t.cores == s.cores[c := s.cores[c].(listed := t.cores[c].listed)]
  {
  }

  /** The run is possible, ends with the job recorded as OK, and leaves these mailboxes. */
  ghost predicate Closes(w: Wire, k: Crypto, honest: bool, s: State, run: seq<Action>, c: Bytes, key: Bytes,
                         mailbox: set<(Bytes, Bytes)>)
  {
    && Possible(w, k, honest, s, run) && ClosedOk(After(w, k, honest, s, run), c, key)
    && After(w, k, honest, s, run).history.mailbox == mailbox
  }

  lemma Precede(w: Wire, k: Crypto, honest: bool, s: State, a: Action, rest: seq<Action>, c: Bytes, key: Bytes,
                mailbox: set<(Bytes, Bytes)>)
    requires Enabled(w, k, honest, s, a) && Closes(w, k, honest, Apply(w, k, honest, s, a), rest, c, key, mailbox)
    ensures Closes(w, k, honest, s, [a] + rest, c, key, mailbox)
  {
    OneStep(w, k, honest, s, a, rest);
  }

  lemma PrecedeTwo(w: Wire, k: Crypto, honest: bool, s: State, a: Action, t: State, b: Action, rest: seq<Action>,
                   c: Bytes, key: Bytes, mailbox: set<(Bytes, Bytes)>)
    requires Enabled(w, k, honest, s, a) && t == Apply(w, k, honest, s, a) && Enabled(w, k, honest, t, b)
    requires Closes(w, k, honest, Apply(w, k, honest, t, b), rest, c, key, mailbox)
    ensures Closes(w, k, honest, s, [a, b] + rest, c, key, mailbox)
  {
    Precede(w, k, honest, t, b, rest, c, key, mailbox);
    Precede(w, k, honest, s, a, [b] + rest, c, key, mailbox);
    assert [a] + ([b] + rest) == [a, b] + rest;
  }

  /** What a sender needs to get a message through in the end: an open job, the recipient bound to a
      core that hears it, and acks that can be read. */
  ghost predicate CanRecover(w: Wire, k: Crypto, s: State, c: Bytes, d: Bytes, m: DirectMessage, job: Accepted) {
    && OpenJob(w, s, c, d, m, job) && HeardHere(w, k, s, c, d, m) && d != []
    && w.destination(job.data) == Ok(Some(m.recipient)) && CoreFor(s.cores[c].bindings, m.recipient) == Some(d)
    && CanAck(w, k, d, c, DirectAck(m, ACK_OK, [], 0))
  }

  /** It depends on the sender's store and on the bindings alone. */
  lemma StillRecovers(w: Wire, k: Crypto, s: State, t: State, c: Bytes, d: Bytes, m: DirectMessage, job: Accepted)
    requires CanRecover(w, k, s, c, d, m, job) && c in t.cores && d in t.cores
    requires t.cores[c].store == s.cores[c].store && t.cores[c].bindings == s.cores[c].bindings
    requires t.cores[d].bindings == s.cores[d].bindings
    ensures CanRecover(w, k, t, c, d, m, job)
  {
  }

  ghost function OkReply(w: Wire, k: Crypto, c: Bytes, d: Bytes, m: DirectMessage): Packet
    requires CanAck(w, k, d, c, DirectAck(m, ACK_OK, [], 0))
  {
    Packet(c, AckData(w, k, d, c, DirectAck(m, ACK_OK, [], 0)))
  }

  lemma DeliveryCloses(w: Wire, k: Crypto, honest: bool, s: State, c: Bytes, d: Bytes, m: DirectMessage)
    requires WireOk(w) && CanReceive(w, k, s, c, d, m) && Packet(d, w.putDirect(c, m).value) in s.net
    requires HasJob(s, c, d, m) && CanAck(w, k, d, c, DirectAck(m, ACK_OK, [], 0))
    ensures Closes(w, k, honest, s, DeliveryRun(w, c, d, m, OkReply(w, k, c, d, m)), c, Key(m.sender, m.messageId),
                   s.history.mailbox + {(d, DeliveryKey(m))})
  {
    DeliveryOf(w, k, honest, s, c, d, m);
  }

  /** A pass followed by a delivery closes an open job whose message the recipient's core does not
      know, whatever became of earlier packets. */
  lemma RetryDelivers(w: Wire, k: Crypto, honest: bool, s: State, c: Bytes, d: Bytes, m: DirectMessage, job: Accepted)
    requires WireOk(w) && CanRecover(w, k, s, c, d, m, job) && DeliveryKey(m) !in s.cores[d].replay.entries
    ensures Closes(w, k, honest, s, [DoList(c), DoRetry(c, job)] + DeliveryRun(w, c, d, m, OkReply(w, k, c, d, m)), c,
                   Key(m.sender, m.messageId), s.history.mailbox + {(d, DeliveryKey(m))})
  {
    ListAndRetry(w, k, s, c, d, m, job);
    var t := ListJobs(s, c);
    DeliveryCloses(w, k, honest, RetryJob(w, t, c, job), c, d, m);
    PrecedeTwo(w, k, honest, s, DoList(c), t, DoRetry(c, job), DeliveryRun(w, c, d, m, OkReply(w, k, c, d, m)), c,
               Key(m.sender, m.messageId), s.history.mailbox + {(d, DeliveryKey(m))});
  }

  /** The network loses a packet. */
  function Without(s: State, p: Packet): State {
    s.(net := s.net - multiset{p})
  }

  /** A lost message is made good: submitted, lost, listed, retried, and delivered. */
  lemma LostMessageRecovers(w: Wire, k: Crypto, honest: bool, s: State, c: Bytes, d: Bytes, m: DirectMessage)
    returns (job: Accepted)
    requires WireOk(w) && CanExchange(w, k, s, c, d, m)
    requires w.destination(w.putDirect(c, m).value) == Ok(Some(m.recipient))
    ensures Closes(w, k, honest, s,
                   [DoSubmit(c, m), DoLose(Direct(w, c, d, m))] +
                   ([DoList(c), DoRetry(c, job)] + DeliveryRun(w, c, d, m, OkReply(w, k, c, d, m))), c,
                   Key(m.sender, m.messageId), s.history.mailbox + {(d, DeliveryKey(m))})
  {
    job := SubmitFiles(w, k, s, c, d, m);
    var t := Submit(w, k, s, c, m);
    var p := Direct(w, c, d, m);
    assert CanRecover(w, k, Without(t, p), c, d, m, job);
    RetryDelivers(w, k, honest, Without(t, p), c, d, m, job);
    PrecedeTwo(w, k, honest, s, DoSubmit(c, m), t, DoLose(p),
               [DoList(c), DoRetry(c, job)] + DeliveryRun(w, c, d, m, OkReply(w, k, c, d, m)), c,
               Key(m.sender, m.messageId), s.history.mailbox + {(d, DeliveryKey(m))});
  }

  lemma AbandonedLeaves(w: Wire, k: Crypto, honest: bool, s: State, c: Bytes, d: Bytes, m: DirectMessage, job: Accepted,
                        code: Bytes, ms: u64)
    requires CanRecover(w, k, s, c, d, m, job) && HandlersInv(k, honest, s.history, d, s.cores[d])
    requires Handler(c, m, false) in s.cores[d].handlers && CanAck(w, k, d, c, DirectAck(m, ACK_RETRYABLE, code, ms))
    ensures var t := Abandon(w, k, s, d, Handler(c, m, false), code, ms);
      && CanRecover(w, k, t, c, d, m, job) && DeliveryKey(m) !in t.cores[d].replay.entries
      && Packet(c, AckData(w, k, d, c, DirectAck(m, ACK_RETRYABLE, code, ms))) in t.net
      && t.history.mailbox == s.history.mailbox
  {
    var h := Handler(c, m, false);
    assert HandlerOk(k, honest, s.history, d, s.cores[d], h);
    AbandonAnswers(w, k, s, d, h, code, ms);
    O.AbandonCores(w, k, s, d, h, code, ms, c);
    StillRecovers(w, k, s, Abandon(w, k, s, d, h, code, ms), c, d, m, job);
  }

  /** A failed delivery is made good: abandoned, its answer lost, listed, retried, and delivered. */
  lemma AbandonedRecovers(w: Wire, k: Crypto, honest: bool, s: State, c: Bytes, d: Bytes, m: DirectMessage,
                          job: Accepted, code: Bytes, ms: u64)
    requires WireOk(w) && d in s.cores && HandlersInv(k, honest, s.history, d, s.cores[d])
    requires CanRecover(w, k, s, c, d, m, job) && Handler(c, m, false) in s.cores[d].handlers
    requires CanAck(w, k, d, c, DirectAck(m, ACK_RETRYABLE, code, ms))
    ensures var refusal := Packet(c, AckData(w, k, d, c, DirectAck(m, ACK_RETRYABLE, code, ms)));
      Closes(w, k, honest, s,
             [DoAbandon(d, Handler(c, m, false), code, ms), DoLose(refusal)] +
             ([DoList(c), DoRetry(c, job)] + DeliveryRun(w, c, d, m, OkReply(w, k, c, d, m))), c,
             Key(m.sender, m.messageId), s.history.mailbox + {(d, DeliveryKey(m))})
  {
    var a := DoAbandon(d, Handler(c, m, false), code, ms);
    var refusal := Packet(c, AckData(w, k, d, c, DirectAck(m, ACK_RETRYABLE, code, ms)));
    AbandonedLeaves(w, k, honest, s, c, d, m, job, code, ms);
    var t := Abandon(w, k, s, d, Handler(c, m, false), code, ms);
    StillRecovers(w, k, t, Without(t, refusal), c, d, m, job);
    RetryDelivers(w, k, honest, Without(t, refusal), c, d, m, job);
    PrecedeTwo(w, k, honest, s, a, t, DoLose(refusal),
               [DoList(c), DoRetry(c, job)] + DeliveryRun(w, c, d, m, OkReply(w, k, c, d, m)), c,
               Key(m.sender, m.messageId), s.history.mailbox + {(d, DeliveryKey(m))});
  }

  /** The window remembers the message beyond the present. */
  ghost predicate Remembers(core: Core, m: DirectMessage, expires: int) {
    && W.Inv(core.replay, core.clock) && core.clock < expires && DeliveryKey(m) in core.replay.entries
    && core.replay.entries[DeliveryKey(m)] == W.Committed(expires)
  }

  /** A repeated message that is remembered closes the sender's job. */
  lemma RepeatCloses(w: Wire, k: Crypto, honest: bool, s: State, c: Bytes, d: Bytes, m: DirectMessage, job: Accepted,
                     expires: int)
    requires WireOk(w) && CanRecover(w, k, s, c, d, m, job) && Remembers(s.cores[d], m, expires)
    requires Direct(w, c, d, m) in s.net
    ensures Closes(w, k, honest, s, [DoReceiveDirect(Direct(w, c, d, m)), DoReceiveAck(OkReply(w, k, c, d, m))] + [], c,
                   Key(m.sender, m.messageId), s.history.mailbox)
  {
    var p := Direct(w, c, d, m);
    DuplicateAnswered(w, k, s, c, d, m, expires);
    var t := ReceiveDirect(w, k, s, p);
    assert HasJob(t, c, d, m) && OkReply(w, k, c, d, m) in t.net;
    AckCloses(w, k, t, c, d, m);
    PrecedeTwo(w, k, honest, s, DoReceiveDirect(p), t, DoReceiveAck(OkReply(w, k, c, d, m)), [], c,
               Key(m.sender, m.messageId), s.history.mailbox);
  }

  /** The message was delivered, its key is remembered and its OK is missing: a pass fetches it. */
  lemma RetryFetchesOk(w: Wire, k: Crypto, honest: bool, s: State, c: Bytes, d: Bytes, m: DirectMessage, job: Accepted,
                       expires: int)
    requires WireOk(w) && CanRecover(w, k, s, c, d, m, job) && Remembers(s.cores[d], m, expires)
    ensures Closes(w, k, honest, s,
                   [DoList(c), DoRetry(c, job)] +
                   ([DoReceiveDirect(Direct(w, c, d, m)), DoReceiveAck(OkReply(w, k, c, d, m))] + []), c,
                   Key(m.sender, m.messageId), s.history.mailbox)
  {
    ListAndRetry(w, k, s, c, d, m, job);
    var t := ListJobs(s, c);
    var u := RetryJob(w, t, c, job);
    StillRecovers(w, k, s, u, c, d, m, job);
    RepeatCloses(w, k, honest, u, c, d, m, job, expires);
    PrecedeTwo(w, k, honest, s, DoList(c), t, DoRetry(c, job),
               [DoReceiveDirect(Direct(w, c, d, m)), DoReceiveAck(OkReply(w, k, c, d, m))] + [], c,
               Key(m.sender, m.messageId), s.history.mailbox);
  }

  lemma FinishRemembers(core: Core, next: Core, c: Bytes, m: DirectMessage)
    requires W.Inv(core.replay, core.clock) && W.Reserved(core.replay, DeliveryKey(m))
    requires O.Ended(core, next, Handler(c, m, true))
    requires !W.EvictedBy(core.replay, W.Finishes(DeliveryKey(m), true, core.clock), DeliveryKey(m))
    ensures Remembers(next, m, core.clock + core.replay.ttl)
  {
    W.FinishCommits(core.replay, DeliveryKey(m), core.clock, core.clock);
    W.StepInv(core.replay, W.Finishes(DeliveryKey(m), true, core.clock), core.clock);
  }

  /** A completed delivery is remembered. */
  lemma CompletedRemembers(w: Wire, k: Crypto, s: State, c: Bytes, d: Bytes, m: DirectMessage)
    requires d in s.cores && W.Inv(s.cores[d].replay, s.cores[d].clock)
    requires W.Reserved(s.cores[d].replay, DeliveryKey(m))
    requires !O.Evicts(s, DoComplete(d, Handler(c, m, true)), d, DeliveryKey(m))
    ensures var t := Complete(w, k, s, d, Handler(c, m, true));
      d in t.cores && Remembers(t.cores[d], m, s.cores[d].clock + s.cores[d].replay.ttl)
  {
    O.CompleteCores(w, k, s, d, Handler(c, m, true), d);
    var next := Complete(w, k, s, d, Handler(c, m, true)).cores[d];
    FinishRemembers(s.cores[d], next, c, m);
  }

  lemma CompletedRecovers(w: Wire, k: Crypto, s: State, c: Bytes, d: Bytes, m: DirectMessage, job: Accepted, p: Packet)
    requires CanRecover(w, k, s, c, d, m, job) && Handler(c, m, true) in s.cores[d].handlers
    ensures var t := Complete(w, k, s, d, Handler(c, m, true)); CanRecover(w, k, Without(t, p), c, d, m, job)
  {
    O.CompleteCores(w, k, s, d, Handler(c, m, true), c);
    O.CompleteCores(w, k, s, d, Handler(c, m, true), d);
    StillRecovers(w, k, s, Without(Complete(w, k, s, d, Handler(c, m, true)), p), c, d, m, job);
  }

  lemma HandlerReserves(k: Crypto, honest: bool, g: History, d: Bytes, core: Core, h: Handler)
    requires HandlersInv(k, honest, g, d, core) && h in core.handlers
    ensures W.Reserved(core.replay, DeliveryKey(h.message))
  {
    assert HandlerOk(k, honest, g, d, core, h);
  }

  /** Once the delivery is complete and its answer lost, a pass can fetch another. */
  lemma CompletedReady(w: Wire, k: Crypto, s: State, c: Bytes, d: Bytes, m: DirectMessage, job: Accepted)
    requires CanRecover(w, k, s, c, d, m, job) && Handler(c, m, true) in s.cores[d].handlers
    requires W.Inv(s.cores[d].replay, s.cores[d].clock) && W.Reserved(s.cores[d].replay, DeliveryKey(m))
    requires !O.Evicts(s, DoComplete(d, Handler(c, m, true)), d, DeliveryKey(m))
    ensures var t := Complete(w, k, s, d, Handler(c, m, true));
      var u := Without(t, OkReply(w, k, c, d, m));
      && OkReply(w, k, c, d, m) in t.net && u.history.mailbox == s.history.mailbox && CanRecover(w, k, u, c, d, m, job)
      && Remembers(u.cores[d], m, s.cores[d].clock + s.cores[d].replay.ttl)
  {
    CompletedRemembers(w, k, s, c, d, m);
    CompletedRecovers(w, k, s, c, d, m, job, OkReply(w, k, c, d, m));
    CompleteAcks(w, k, s, d, Handler(c, m, true));
  }

  lemma LostAckCloses(w: Wire, k: Crypto, honest: bool, s: State, c: Bytes, d: Bytes, m: DirectMessage, job: Accepted)
    requires WireOk(w) && CanRecover(w, k, s, c, d, m, job)
    requires W.Inv(s.cores[d].replay, s.cores[d].clock)
    requires W.Reserved(s.cores[d].replay, DeliveryKey(m))
    requires Handler(c, m, true) in s.cores[d].handlers
    requires !O.Evicts(s, DoComplete(d, Handler(c, m, true)), d, DeliveryKey(m))
    ensures Closes(w, k, honest, s,
                   [DoComplete(d, Handler(c, m, true)), DoLose(OkReply(w, k, c, d, m))] +
                   ([DoList(c), DoRetry(c, job)] +
                    ([DoReceiveDirect(Direct(w, c, d, m)), DoReceiveAck(OkReply(w, k, c, d, m))] + [])), c,
                   Key(m.sender, m.messageId), s.history.mailbox)
  {
    var reply := OkReply(w, k, c, d, m);
    CompletedReady(w, k, s, c, d, m, job);
    var t := Complete(w, k, s, d, Handler(c, m, true));
    RetryFetchesOk(w, k, honest, Without(t, reply), c, d, m, job, s.cores[d].clock + s.cores[d].replay.ttl);
    PrecedeTwo(w, k, honest, s, DoComplete(d, Handler(c, m, true)), t, DoLose(reply),
               [DoList(c), DoRetry(c, job)] + ([DoReceiveDirect(Direct(w, c, d, m)), DoReceiveAck(reply)] + []), c,
               Key(m.sender, m.messageId), s.history.mailbox);
  }

  /** A lost OK is made good without a second delivery: completed, its ack lost, listed, retried,
      answered from the window, and closed. */
  lemma LostAckRecovers(w: Wire, k: Crypto, honest: bool, s: State, c: Bytes, d: Bytes, m: DirectMessage, job: Accepted)
    requires WireOk(w) && CanRecover(w, k, s, c, d, m, job)
    requires W.Inv(s.cores[d].replay, s.cores[d].clock) && HandlersInv(k, honest, s.history, d, s.cores[d])
    requires Handler(c, m, true) in s.cores[d].handlers
    requires !O.Evicts(s, DoComplete(d, Handler(c, m, true)), d, DeliveryKey(m))
    ensures Closes(w, k, honest, s,
                   [DoComplete(d, Handler(c, m, true)), DoLose(OkReply(w, k, c, d, m))] +
                   ([DoList(c), DoRetry(c, job)] +
                    ([DoReceiveDirect(Direct(w, c, d, m)), DoReceiveAck(OkReply(w, k, c, d, m))] + [])), c,
                   Key(m.sender, m.messageId), s.history.mailbox)
  {
    HandlerReserves(k, honest, s.history, d, s.cores[d], Handler(c, m, true));
    LostAckCloses(w, k, honest, s, c, d, m, job);
  }

  /** With the real codec, where a message is for can always be read: a lost message is made good
      whenever its cores can exchange it. */
  lemma RealMessageRecovers(k: Crypto, honest: bool, s: State, c: Bytes, d: Bytes, m: DirectMessage)
    returns (job: Accepted)
    requires CanExchange(X.WIRE, k, s, c, d, m)
    ensures Closes(X.WIRE, k, honest, s,
                   [DoSubmit(c, m), DoLose(Direct(X.WIRE, c, d, m))] +
                   ([DoList(c), DoRetry(c, job)] + DeliveryRun(X.WIRE, c, d, m, OkReply(X.WIRE, k, c, d, m))), c,
                   Key(m.sender, m.messageId), s.history.mailbox + {(d, DeliveryKey(m))})
  {
    X.WireContract();
    DirectDestination(c, m);
    job := LostMessageRecovers(X.WIRE, k, honest, s, c, d, m);
  }
}
