/** The protocol over database stores: every call it makes on a store is one the database can
    keep, so a core that runs on the buckets is, state for state, the core of the protocol. */
module DurableDelivery {
  import opened Framing
  import opened MessageCodec
  import opened AcceptanceStore
  import opened Retry
  import opened Protocol
  import opened DirectDelivery
  import D = AcceptanceDb
  import O = DeliverOnce

  // ------------------------------------------------- the calls of an action

  function RequestOf(k: Crypto, m: DirectMessage, target: Bytes, data: Bytes): Request {
    Request(m.sender, m.senderMsgId, m.messageId, k.digest(data), target, data, NoCharge)
  }

  function SubmitCalls(w: Wire, k: Crypto, core: Core, c: Bytes, m: DirectMessage): seq<D.Call> {
    var target := CoreFor(core.bindings, m.recipient);
    var data := w.putDirect(c, m);
    if !k.accountSigned(m) || CoreFor(core.bindings, m.sender) != Some(c) || target.None? || data.None? then []
    else [D.CallAccept(RequestOf(k, m, target.value, data.value))]
  }

  function RetryCalls(w: Wire, core: Core, job: Accepted): seq<D.Call> {
    match w.destination(job.data)
    case Err(_) => []
    case Ok(None) => []
    case Ok(Some(recipient)) =>
      match CoreFor(core.bindings, recipient)
      case None => []
      case Some(target) => if target == job.target then [] else [D.CallAccept(Reoffer(job, target))]
  }

  function AckCalls(w: Wire, k: Crypto, c: Bytes, p: Packet): seq<D.Call> {
    match w.ackOf(p.data)
    case None => []
    case Some((source, ack)) =>
      if !AckVerified(w, k, source, c, ack) || ack.original == TOPIC_FANOUT || ack.original == TOPIC_KEY_FANOUT then []
      else [D.CallAck(ack.sender, ack.messageId, ack.senderMsgId, source, ack.status)]
  }

  /** What an action asks of the store of core `c`: one call at most. */
  function CallsOf(w: Wire, k: Crypto, s: State, a: Action, c: Bytes): seq<D.Call>
    requires c in s.cores
  {
    match a
    case DoSubmit(d, m) => if d == c then SubmitCalls(w, k, s.cores[c], c, m) else []
    case DoList(d) => if d == c then [D.CallPending] else []
    case DoRetry(d, job) => if d == c then RetryCalls(w, s.cores[c], job) else []
    case DoPrune(d) => if d == c then [D.CallPrune(s.cores[c].clock)] else []
    case DoReceiveAck(p) => if p.target == c then AckCalls(w, k, c, p) else []
    case _ => []
  }

  /** The store after at most one call. */
  function Called(s: Store, calls: seq<D.Call>): Store {
    if calls == [] then s else D.MemStep(s, calls[0])
  }

  lemma SubmitStore(w: Wire, k: Crypto, s: State, c: Bytes, m: DirectMessage, d: Bytes)
    requires c in s.cores && d in s.cores
    ensures var t := Submit(w, k, s, c, m);
      d in t.cores && t.cores[d].store == if d == c then Called(s.cores[c].store, SubmitCalls(w, k, s.cores[c], c, m))
                                          else s.cores[d].store
    ensures var t := Submit(w, k, s, c, m); t.cores[d].listed == s.cores[d].listed
    ensures var t := Submit(w, k, s, c, m); t.cores[d].bindings == s.cores[d].bindings
  {
  }

  lemma RetryStore(w: Wire, s: State, c: Bytes, job: Accepted, d: Bytes)
    requires c in s.cores && d in s.cores
    ensures var t := RetryJob(w, s, c, job);
      d in t.cores && t.cores[d].store == if d == c then Called(s.cores[c].store, RetryCalls(w, s.cores[c], job))
                                          else s.cores[d].store
    ensures var t := RetryJob(w, s, c, job);
      t.cores[d].listed <= s.cores[d].listed && t.cores[d].bindings == s.cores[d].bindings
  {
  }

  lemma AckStore(w: Wire, k: Crypto, s: State, p: Packet, d: Bytes)
    requires p.target in s.cores && d in s.cores
    ensures var t := ReceiveAck(w, k, s, p);
      d in t.cores && t.cores[d].store == if d == p.target then Called(s.cores[d].store, AckCalls(w, k, d, p))
                                          else s.cores[d].store
    ensures var t := ReceiveAck(w, k, s, p);
      t.cores[d].listed == s.cores[d].listed && t.cores[d].bindings == s.cores[d].bindings
  {
  }

  /** The parts of a core that its store calls depend on. */
  predicate SameJobs(core: Core, next: Core) {
    next.store == core.store && next.listed == core.listed && next.bindings == core.bindings
  }

  lemma ReceiveStore(w: Wire, k: Crypto, s: State, p: Packet, d: Bytes)
    requires p.target in s.cores && d in s.cores
    ensures var t := ReceiveDirect(w, k, s, p); d in t.cores && SameJobs(s.cores[d], t.cores[d])
  {
    match w.directOf(p.data)
    case None =>
    case Some((source, m)) => O.HandleCores(w, k, s.(net := s.net - multiset{p}), p.target, source, m, d);
  }

  /** Receiving and ending deliveries touches no store. */
  lemma DeliveryStore(w: Wire, k: Crypto, honest: bool, s: State, a: Action, d: Bytes)
    requires Enabled(w, k, honest, s, a) && d in s.cores
    requires a.DoReceiveDirect? || a.DoAbandon? || a.DoComplete? || a.DoAppend?
    ensures var t := Apply(w, k, honest, s, a); d in t.cores && SameJobs(s.cores[d], t.cores[d])
  {
    match a
    case DoReceiveDirect(p) => ReceiveStore(w, k, s, p, d);
    case DoAbandon(c, h, code, ms) => O.AbandonCores(w, k, s, c, h, code, ms, d);
    case DoComplete(c, h) => O.CompleteCores(w, k, s, c, h, d);
    case DoAppend(c, h) =>
  }

  lemma PassStore(s: State, c: Bytes, d: Bytes)
    requires c in s.cores && d in s.cores
    ensures d in PruneJobs(s, c).cores && d in ListJobs(s, c).cores && d in Restart(s, c).cores
    ensures PruneJobs(s, c).cores[d].store ==
      if d == c then D.MemStep(s.cores[c].store, D.CallPrune(s.cores[c].clock)) else s.cores[d].store
    ensures ListJobs(s, c).cores[d].store == s.cores[d].store == Restart(s, c).cores[d].store
  {
  }

  lemma CoreStore(w: Wire, k: Crypto, honest: bool, s: State, a: Action, c: Bytes)
    requires Enabled(w, k, honest, s, a) && c in s.cores && (a.DoList? || a.DoPrune? || a.DoRestart?)
    ensures c in Apply(w, k, honest, s, a).cores
    ensures Apply(w, k, honest, s, a).cores[c].store == Called(s.cores[c].store, CallsOf(w, k, s, a, c))
  {
    PassStore(s, a.c, c);
  }

  lemma NetStore(w: Wire, k: Crypto, honest: bool, s: State, a: Action, c: Bytes)
    requires Enabled(w, k, honest, s, a) && c in s.cores
    requires a.DoBind? || a.DoTick? || a.DoLose? || a.DoDuplicate? || a.DoInject?
    ensures c in Apply(w, k, honest, s, a).cores
    ensures Apply(w, k, honest, s, a).cores[c].store == Called(s.cores[c].store, CallsOf(w, k, s, a, c))
  {
  }

  /** The store of every core changes by the calls of the action, and not otherwise. */
  lemma StepStore(w: Wire, k: Crypto, honest: bool, s: State, a: Action, c: Bytes)
    requires Enabled(w, k, honest, s, a) && c in s.cores
    ensures c in Apply(w, k, honest, s, a).cores
    ensures Apply(w, k, honest, s, a).cores[c].store == Called(s.cores[c].store, CallsOf(w, k, s, a, c))
  {
    if a.DoReceiveDirect? || a.DoAbandon? || a.DoComplete? || a.DoAppend? {
      DeliveryStore(w, k, honest, s, a, c);
    } else if a.DoSubmit? {
      SubmitStore(w, k, s, a.c, a.m, c);
    } else if a.DoRetry? {
      RetryStore(w, s, a.c, a.job, c);
    } else if a.DoReceiveAck? {
      AckStore(w, k, s, a.p, c);
    } else if a.DoList? || a.DoPrune? || a.DoRestart? {
      CoreStore(w, k, honest, s, a, c);
    } else {
      NetStore(w, k, honest, s, a, c);
    }
  }

  // --------------------------------------------------------- what can be kept

  /** A digest is as long as the record's field for it. */
  ghost predicate DigestOk(k: Crypto) {
    forall d :: |k.digest(d)| == DIGEST_SIZE
  }

  /** A job whose record the database can read back, wherever it is sent. */
  predicate Keepable(job: Accepted) {
    && ValidAccount(job.sender) && ValidMessageId(job.messageId) && |job.digest| == DIGEST_SIZE
    && job.target != [] && 0 < |job.data| <= MAX_RECORD_DATA
  }

  ghost predicate AllKeepable(s: Store) {
    forall key :: key in s.accepted ==> Keepable(s.accepted[key])
  }

  /** The core holds such jobs only, and knows cores by ids that fit a record. */
  ghost predicate CoreDurable(core: Core) {
    && AllKeepable(core.store)
    && (forall job :: job in core.listed ==> Keepable(job))
    && (forall account :: account in core.bindings ==> |core.bindings[account]| <= MAX_RECORD_TARGET)
  }

  /** An ack that names no job: without a message id or a source. Both stores refuse it. */
  predicate NamesNothing(s: Store, call: D.Call) {
    && call.CallAck? && (!ValidMessageId(call.messageId) || call.sourceCore == [])
    && MarkAck(s, call.sender, call.messageId, call.senderMsgId, call.sourceCore, call.status).error.Some?
  }

  predicate Served(s: Store, call: D.Call) {
    D.CallOk(s, call) || NamesNothing(s, call)
  }

  lemma SubmitServed(k: Crypto, core: Core, c: Bytes, m: DirectMessage)
    requires DigestOk(k) && CoreDurable(core)
    ensures forall call :: call in SubmitCalls(WIRE, k, core, c, m) ==> D.CallOk(core.store, call)
  {
    var target, data := CoreFor(core.bindings, m.recipient), PutDirect(c, m);
    if target.Some? && data.Some? {
      assert D.Storable(RequestOf(k, m, target.value, data.value));
    }
  }

  lemma RetryServed(core: Core, job: Accepted)
    requires CoreDurable(core) && Keepable(job)
    ensures forall call :: call in RetryCalls(WIRE, core, job) ==> D.CallOk(core.store, call)
  {
  }

  /** What a readable ack has. */
  lemma AckFields(data: Bytes)
    requires AckOf(data).Some?
    ensures var ack := AckOf(data).value.1;
      ValidAccount(ack.sender) && ack.status != 0 && (ack.messageId == [] || ValidMessageId(ack.messageId))
  {
    AckLocal(PayloadOf(ACK, data).value.1, []);
  }

  lemma NoJobWithoutId(s: Store, sender: Bytes)
    requires StoreOk(s) && AllKeepable(s) && ValidAccount(sender)
    ensures Key(sender, []) !in s.accepted
  {
    forall key | key in s.accepted ensures |key| > ACCOUNT_SIZE + 1 { assert RecordOk(s, key); }
    assert |Key(sender, [])| == ACCOUNT_SIZE + 1;
  }

  lemma AckServed(k: Crypto, core: Core, c: Bytes, p: Packet)
    requires StoreOk(core.store) && CoreDurable(core)
    ensures forall call :: call in AckCalls(WIRE, k, c, p) ==> Served(core.store, call)
  {
    if AckOf(p.data).Some? {
      AckFields(p.data);
      NoJobWithoutId(core.store, AckOf(p.data).value.1.sender);
    }
  }

  /** Every call the protocol makes with the real codec is one the database serves as the memory
      does. */
  lemma StepServed(k: Crypto, honest: bool, s: State, a: Action, c: Bytes)
    requires DigestOk(k) && Enabled(WIRE, k, honest, s, a) && c in s.cores
    requires StoreOk(s.cores[c].store) && CoreDurable(s.cores[c])
    ensures forall call :: call in CallsOf(WIRE, k, s, a, c) ==> Served(s.cores[c].store, call)
  {
    match a
    case DoSubmit(d, m) => SubmitServed(k, s.cores[c], c, m);
    case DoRetry(d, job) => if d == c { RetryServed(s.cores[c], job); }
    case DoReceiveAck(p) => AckServed(k, s.cores[c], c, p);
    case _ =>
  }

  /** Such calls leave jobs that can be kept. */
  lemma CallKeeps(s: Store, call: D.Call)
    requires AllKeepable(s) && Served(s, call)
    ensures AllKeepable(D.MemStep(s, call))
  {
  }

  /** An account may be bound to a core with a short id only. */
  predicate ShortId(a: Action) {
    a.DoBind? ==> |a.core| <= MAX_RECORD_TARGET
  }

  lemma ListedKeepable(s: Store)
    requires AllKeepable(s)
    ensures forall job :: job in PendingSet(s) ==> Keepable(job)
  {
  }

  /** Beside its store, a core takes over no job that cannot be kept, and no long id. */
  lemma StepRest(k: Crypto, honest: bool, s: State, a: Action, c: Bytes)
    requires Enabled(WIRE, k, honest, s, a) && c in s.cores && CoreDurable(s.cores[c]) && ShortId(a)
    ensures var t := Apply(WIRE, k, honest, s, a);
      && c in t.cores && (forall job :: job in t.cores[c].listed ==> Keepable(job))
      && forall account :: account in t.cores[c].bindings ==> |t.cores[c].bindings[account]| <= MAX_RECORD_TARGET
  {
    ListedKeepable(s.cores[c].store);
    if a.DoReceiveDirect? || a.DoAbandon? || a.DoComplete? || a.DoAppend? {
      DeliveryStore(WIRE, k, honest, s, a, c);
    } else if a.DoSubmit? {
      SubmitStore(WIRE, k, s, a.c, a.m, c);
    } else if a.DoRetry? {
      RetryStore(WIRE, s, a.c, a.job, c);
    } else if a.DoReceiveAck? {
      AckStore(WIRE, k, s, a.p, c);
    }
  }

  lemma StepDurable(k: Crypto, honest: bool, s: State, a: Action, c: Bytes)
    requires DigestOk(k) && Enabled(WIRE, k, honest, s, a) && c in s.cores && ShortId(a)
    requires StoreOk(s.cores[c].store) && CoreDurable(s.cores[c])
    ensures c in Apply(WIRE, k, honest, s, a).cores && CoreDurable(Apply(WIRE, k, honest, s, a).cores[c])
  {
    StepRest(k, honest, s, a, c);
    StepStore(WIRE, k, honest, s, a, c);
    StepServed(k, honest, s, a, c);
    var calls := CallsOf(WIRE, k, s, a, c);
    if calls != [] { CallKeeps(s.cores[c].store, calls[0]); }
  }

  // ------------------------------------------------------- the database follows

  ghost predicate Tracks(db: D.Db, s: Store) {
    D.DbOk(db) && D.Abs(db) == s
  }

  /** A call served leaves the buckets tracking the store, and the reply is one the memory could
      give; an ack that names nothing is refused by both. */
  lemma CallTracks(db: D.Db, s: Store, call: D.Call, reply: D.Reply)
    requires Tracks(db, s) && Served(s, call) && D.DbReply(db, call, reply)
    ensures Tracks(D.DbStep(db, call), D.MemStep(s, call))
    ensures D.MemReply(s, call, reply) || (NamesNothing(s, call) && reply.Completed? && reply.error.Some?)
  {
    if D.CallOk(s, call) {
      D.StepRefines(db, call);
      D.ReplyRefines(db, call, reply);
    }
  }

  lemma CallTracksState(db: D.Db, s: Store, call: D.Call)
    requires Tracks(db, s) && Served(s, call)
    ensures Tracks(D.DbStep(db, call), D.MemStep(s, call))
  {
    if D.CallOk(s, call) { D.StepRefines(db, call); }
  }

  /** All calls of a run on the store of one core, in order. */
  ghost function CallsIn(k: Crypto, honest: bool, s: State, run: seq<Action>, c: Bytes): seq<D.Call>
    requires Possible(WIRE, k, honest, s, run) && c in s.cores
    decreases run
  {
    if run == [] then []
    else
      StepStore(WIRE, k, honest, s, run[0], c);
      CallsOf(WIRE, k, s, run[0], c) + CallsIn(k, honest, Apply(WIRE, k, honest, s, run[0]), run[1..], c)
  }

  lemma DbRunNext(db: D.Db, first: seq<D.Call>, rest: seq<D.Call>)
    requires |first| <= 1
    ensures D.DbRun(db, first + rest) == D.DbRun(if first == [] then db else D.DbStep(db, first[0]), rest)
  {
    if first == [] {
      assert first + rest == rest;
    } else {
      assert (first + rest)[0] == first[0] && (first + rest)[1..] == rest;
    }
  }

  lemma StepTracks(k: Crypto, honest: bool, s: State, a: Action, c: Bytes, db: D.Db)
    requires DigestOk(k) && Enabled(WIRE, k, honest, s, a) && c in s.cores
    requires StoreOk(s.cores[c].store) && CoreDurable(s.cores[c]) && Tracks(db, s.cores[c].store)
    ensures c in Apply(WIRE, k, honest, s, a).cores
    ensures var calls := CallsOf(WIRE, k, s, a, c);
      |calls| <= 1 &&
      Tracks(if calls == [] then db else D.DbStep(db, calls[0]), Apply(WIRE, k, honest, s, a).cores[c].store)
  {
    StepStore(WIRE, k, honest, s, a, c);
    StepServed(k, honest, s, a, c);
    var calls := CallsOf(WIRE, k, s, a, c);
    if calls != [] { CallTracksState(db, s.cores[c].store, calls[0]); }
  }

  lemma {:induction false} RunTracks(k: Crypto, honest: bool, s: State, run: seq<Action>, c: Bytes, db: D.Db)
    requires WireOk(WIRE) && DigestOk(k) && Inv(WIRE, k, honest, s) && Possible(WIRE, k, honest, s, run) && c in s.cores
    requires (forall i :: 0 <= i < |run| ==> ShortId(run[i])) && CoreDurable(s.cores[c]) && Tracks(db, s.cores[c].store)
    ensures var t := After(WIRE, k, honest, s, run);
      c in t.cores && Tracks(D.DbRun(db, CallsIn(k, honest, s, run, c)), t.cores[c].store)
    decreases run
  {
    if run != [] {
      var t := Apply(WIRE, k, honest, s, run[0]);
      assert CoreInv(WIRE, k, honest, s.history, c, s.cores[c]);
      StepInv(WIRE, k, honest, s, run[0]);
      StepDurable(k, honest, s, run[0], c);
      StepTracks(k, honest, s, run[0], c, db);
      var calls := CallsOf(WIRE, k, s, run[0], c);
      RunTracks(k, honest, t, run[1..], c, if calls == [] then db else D.DbStep(db, calls[0]));
      DbRunNext(db, calls, CallsIn(k, honest, t, run[1..], c));
    }
  }

  /** The delivery guarantee on database stores. In every run of the protocol with the real codec,
      where digests have their length and cores short ids: the buckets a core's calls make, from
      empty ones on, decode to its jobs, and a record that reads OK is a message its account signed
      and this core accepted, appended by the core that acknowledged it. */
  lemma DurableOkMeansDelivered(k: Crypto, honest: bool, start: State, run: seq<Action>, c: Bytes, key: Bytes)
    requires DigestOk(k) && Init(start) && Possible(WIRE, k, honest, start, run) && c in start.cores
    requires CoreDurable(start.cores[c]) && forall i :: 0 <= i < |run| ==> ShortId(run[i])
    ensures var s := After(WIRE, k, honest, start, run);
      var db := D.DbRun(D.EMPTY_DB, CallsIn(k, honest, start, run, c));
      && c in s.cores && D.DbOk(db) && D.Abs(db) == s.cores[c].store
      && (key in db.accepted && D.Record(db.accepted[key]).status == ACK_OK ==>
            var job := D.Record(db.accepted[key]);
            && DirectOf(job.data).Some?
            && var (source, m) := DirectOf(job.data).value;
               && source == c && k.accountSigned(m) && (c, m) in s.history.accepted
               && m.sender == job.sender && m.senderMsgId == job.senderMsgId && m.messageId == job.messageId
               && (honest || OneRecipient(k, m) ==> (job.target, DeliveryKey(m)) in s.history.mailbox))
  {
    WireContract();
    InitInv(WIRE, k, honest, start);
    assert D.Abs(D.EMPTY_DB) == EMPTY;
    RunTracks(k, honest, start, run, c, D.EMPTY_DB);
    var s := After(WIRE, k, honest, start, run);
    var db := D.DbRun(D.EMPTY_DB, CallsIn(k, honest, start, run, c));
    if key in db.accepted && D.Record(db.accepted[key]).status == ACK_OK {
      assert s.cores[c].store.accepted[key] == D.Record(db.accepted[key]);
      DirectDeliveryIsSafe(k, honest, start, run, c, key);
    }
  }
}
