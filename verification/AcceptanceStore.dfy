/** The sender core's durable jobs: which message ids each account may use next, and the
    accepted messages that still have to be delivered. This is the in-memory store. */
module AcceptanceStore {
  import opened Framing
  import opened MessageCodec

  datatype Store = Store(next: map<Bytes, u64>, accepted: map<Bytes, Accepted>)

  const EMPTY := Store(map[], map[])
  const LAST_ID: u64 := TWO64 - 1

  /** Map key of a job: `sender:messageId`. */
  function Key(sender: Bytes, messageId: Bytes): Bytes {
    sender + [58] + messageId
  }

  lemma KeyInjective(s1: Bytes, m1: Bytes, s2: Bytes, m2: Bytes)
    requires |m1| == |m2| && Key(s1, m1) == Key(s2, m2)
    ensures s1 == s2 && m1 == m2
  {
    assert |s1| == |s2|;
    assert Key(s1, m1)[..|s1|] == s1 && Key(s2, m2)[..|s2|] == s2;
    assert Key(s1, m1)[|s1| + 1..] == m1 && Key(s2, m2)[|s2| + 1..] == m2;
  }

  function NextId(s: Store, sender: Bytes): u64 {
    if sender in s.next then s.next[sender] else 0
  }

  /** The charge callback: absent, or present with the outcome it will report. */
  datatype Charge = NoCharge | Charges(ok: bool)

  datatype Outcome = Refused(error: MsgError) | Admitted(record: Accepted, duplicate: bool)

  datatype AcceptResult = AcceptResult(store: Store, outcome: Outcome, charged: bool) {
    predicate Fresh() {
      outcome.Admitted? && !outcome.duplicate
    }
  }

  datatype Request = Request(
    sender: Bytes, senderMsgId: u64, messageId: Bytes, digest: Bytes, target: Bytes, data: Bytes, charge: Charge)

  function NewRecord(q: Request): Accepted {
    Accepted(q.sender, q.senderMsgId, q.messageId, q.digest, q.target, q.data, false, 0)
  }

  function Accept(s: Store, q: Request): AcceptResult {
    var key := Key(q.sender, q.messageId);
    if !ValidMessageId(q.messageId) then AcceptResult(s, Refused(InvalidEnvelope), false)
    else if key in s.accepted then
      var previous := s.accepted[key];
      if previous.digest != q.digest || previous.senderMsgId != q.senderMsgId then
        AcceptResult(s, Refused(InvalidSequence), false)
      else if !previous.final && q.target != [] && previous.target != q.target then
        var moved := previous.(target := q.target);
        AcceptResult(s.(accepted := s.accepted[key := moved]), Admitted(moved, true), false)
      else
        AcceptResult(s, Admitted(previous, true), false)
    else if q.senderMsgId != NextId(s, q.sender) || NextId(s, q.sender) == LAST_ID then
      AcceptResult(s, Refused(InvalidSequence), false)
    else if q.charge == Charges(false) then
      AcceptResult(s, Refused(ChargeRefused), true)
    else
      AcceptResult(Store(s.next[q.sender := NextId(s, q.sender) + 1], s.accepted[key := NewRecord(q)]),
                   Admitted(NewRecord(q), false), q.charge.Charges?)
  }

  predicate FinalStatus(status: byte) {
    status == ACK_OK || status == ACK_REJECTED
  }

  datatype AckResult = AckResult(store: Store, error: Option<MsgError>)

  function MarkAck(s: Store, sender: Bytes, messageId: Bytes, senderMsgId: u64, sourceCore: Bytes,
                   status: byte): AckResult
  {
    var key := Key(sender, messageId);
    if key !in s.accepted || s.accepted[key].senderMsgId != senderMsgId then AckResult(s, Some(InvalidSequence))
    else if s.accepted[key].target != sourceCore then AckResult(s, Some(InvalidEnvelope))
    else
      AckResult(s.(accepted := s.accepted[key := s.accepted[key].(status := status, final := FinalStatus(status))]),
        None)
  }

  function PendingSet(s: Store): set<Accepted> {
    set k | k in s.accepted && !s.accepted[k].final :: s.accepted[k]
  }

  // ------------------------------------------------------------------ expiry

  const NANOS_PER_MICRO: int := 1000
  /** 7200 blocks of 12 seconds, in nanoseconds. */
  const ACCEPTANCE_TTL: int := (24 * 60 * 60 / 12) * 12 * 1_000_000_000

  function HexDigit(c: byte): nat
    requires LowerHex(c)
  {
    if c <= 57 then c - 48 else c - 87
  }

  function HexValue(digits: Bytes): nat
    requires forall i :: 0 <= i < |digits| ==> LowerHex(digits[i])
  {
    if digits == [] then 0 else 16 * HexValue(digits[..|digits| - 1]) + HexDigit(digits[|digits| - 1])
  }

  /** When a Direct job was generated, in nanoseconds: the first eight bytes of its message
      id count microseconds. Other jobs, and ids outside the clock's range, have no time. */
  function GeneratedAt(m: Accepted): Option<int> {
    if !ValidMessageId(m.messageId) || |m.data| == 0 then None
    else if DecodeEnvelope(m.data).Err? || DecodeEnvelope(m.data).value.kind != DIRECT then None
    else
      var micros := HexValue(m.messageId[..16]);
      if micros == 0 || micros > 0x7fff_ffff_ffff_ffff then None else Some(micros * NANOS_PER_MICRO)
  }

  predicate Expired(m: Accepted, now: int) {
    match GeneratedAt(m)
    case None => false
    case Some(at) => at <= now && now - at >= ACCEPTANCE_TTL
  }

  function Prune(s: Store, now: int): Store {
    s.(accepted := map k | k in s.accepted && !Expired(s.accepted[k], now) :: s.accepted[k])
  }

  // --------------------------------------------------------------- invariant

  predicate RecordOk(s: Store, k: Bytes)
    requires k in s.accepted
  {
    var m := s.accepted[k];
    && k == Key(m.sender, m.messageId)
    && ValidMessageId(m.messageId)
    && m.senderMsgId < NextId(s, m.sender)
    && (m.final <==> FinalStatus(m.status))
  }

  predicate SameSlot(a: Accepted, b: Accepted) {
    a.sender == b.sender && a.senderMsgId == b.senderMsgId
  }

  /** Jobs are filed under their own key, below the sender's next id, one job per id. */
  ghost predicate StoreOk(s: Store) {
    && (forall k :: k in s.accepted ==> RecordOk(s, k))
    && (forall j, k :: j in s.accepted && k in s.accepted && SameSlot(s.accepted[j], s.accepted[k]) ==> j == k)
  }

  lemma AcceptKeepsRecord(s: Store, q: Request, k: Bytes)
    requires StoreOk(s) && k in Accept(s, q).store.accepted
    ensures RecordOk(Accept(s, q).store, k)
  {
    if k in s.accepted { assert RecordOk(s, k); }
  }

  /** A fresh job has a number no stored job of its sender has. */
  lemma AcceptKeepsSlots(s: Store, q: Request, j: Bytes, k: Bytes)
    requires StoreOk(s)
    requires var r := Accept(s, q).store; j in r.accepted && k in r.accepted && SameSlot(r.accepted[j], r.accepted[k])
    ensures j == k
  {
    if j in s.accepted { assert RecordOk(s, j); }
    if k in s.accepted { assert RecordOk(s, k); }
  }

  lemma AcceptKeepsStoreOk(s: Store, q: Request)
    requires StoreOk(s)
    ensures StoreOk(Accept(s, q).store)
  {
    var r := Accept(s, q).store;
    forall k | k in r.accepted ensures RecordOk(r, k) { AcceptKeepsRecord(s, q, k); }
    forall j, k | j in r.accepted && k in r.accepted && SameSlot(r.accepted[j], r.accepted[k]) ensures j == k {
      AcceptKeepsSlots(s, q, j, k);
    }
  }

  lemma MarkAckKeepsStoreOk(s: Store, sender: Bytes, messageId: Bytes, id: u64, core: Bytes, status: byte)
    requires StoreOk(s)
    ensures StoreOk(MarkAck(s, sender, messageId, id, core, status).store)
  {
    var r := MarkAck(s, sender, messageId, id, core, status).store;
    forall k | k in r.accepted ensures RecordOk(r, k) {
      assert RecordOk(s, k);
    }
  }

  lemma PruneKeepsStoreOk(s: Store, now: int)
    requires StoreOk(s)
    ensures StoreOk(Prune(s, now))
  {
    var r := Prune(s, now);
    forall k | k in r.accepted ensures RecordOk(r, k) {
      assert RecordOk(s, k);
    }
  }

  /** Every job of `t` is a job of `s`. */
  ghost predicate Fewer(s: Store, t: Store) {
    t.next == s.next && forall k :: k in t.accepted ==> k in s.accepted && t.accepted[k] == s.accepted[k]
  }

  lemma PruneDrops(s: Store, now: int)
    ensures Fewer(s, Prune(s, now))
  {
  }

  // -------------------------------------------------------------------- runs

  datatype Op =
    | DoAccept(request: Request)
    | DoMarkAck(sender: Bytes, messageId: Bytes, senderMsgId: u64, sourceCore: Bytes, status: byte)
    | DoPrune(now: int)

  function Step(s: Store, op: Op): Store {
    match op
    case DoAccept(q) => Accept(s, q).store
    case DoMarkAck(sender, messageId, id, core, status) => MarkAck(s, sender, messageId, id, core, status).store
    case DoPrune(now) => Prune(s, now)
  }

  function Run(s: Store, ops: seq<Op>): Store
    decreases ops
  {
    if ops == [] then s else Run(Step(s, ops[0]), ops[1..])
  }

  /** The operation freshly accepts a message of the account. */
  predicate FreshFor(s: Store, op: Op, sender: Bytes) {
    op.DoAccept? && op.request.sender == sender && Accept(s, op.request).Fresh()
  }

  /** The sequence numbers freshly accepted for one account during a run, in order. */
  function FreshIds(s: Store, ops: seq<Op>, sender: Bytes): seq<u64>
    decreases ops
  {
    if ops == [] then []
    else
      (if FreshFor(s, ops[0], sender) then [ops[0].request.senderMsgId] else []) +
      FreshIds(Step(s, ops[0]), ops[1..], sender)
  }

  function Range(lo: nat, hi: nat): (r: seq<nat>)
    requires lo <= hi
    ensures |r| == hi - lo
    decreases hi - lo
  {
    if lo == hi then [] else [lo] + Range(lo + 1, hi)
  }

  lemma StepKeepsStoreOk(s: Store, op: Op)
    requires StoreOk(s)
    ensures StoreOk(Step(s, op))
  {
    match op
    case DoAccept(q) => AcceptKeepsStoreOk(s, q);
    case DoMarkAck(a, m, id, c, st) => MarkAckKeepsStoreOk(s, a, m, id, c, st);
    case DoPrune(now) => PruneKeepsStoreOk(s, now);
  }

  /** Every run keeps the store well formed. */
  lemma {:induction false} RunKeepsStoreOk(s: Store, ops: seq<Op>)
    requires StoreOk(s)
    ensures StoreOk(Run(s, ops))
    decreases ops
  {
    if ops != [] {
      StepKeepsStoreOk(s, ops[0]);
      RunKeepsStoreOk(Step(s, ops[0]), ops[1..]);
    }
  }

  /** A sequence moves by a fresh acceptance alone, which takes the number it is at. */
  lemma FreshStep(s: Store, op: Op, sender: Bytes)
    ensures FreshFor(s, op, sender) ==> op.request.senderMsgId == NextId(s, sender) < LAST_ID
    ensures NextId(Step(s, op), sender) == NextId(s, sender) + if FreshFor(s, op, sender) then 1 else 0
  {
  }

  /** Over any run the fresh sequence numbers of an account are consecutive, starting at
      the number it had and ending just below the number it has: no gap, no repetition, no
      wrap-around, whatever is acknowledged or pruned in between. */
  lemma {:induction false} FreshIdsConsecutive(s: Store, ops: seq<Op>, sender: Bytes)
    ensures NextId(s, sender) <= NextId(Run(s, ops), sender)
    ensures FreshIds(s, ops, sender) == Range(NextId(s, sender), NextId(Run(s, ops), sender))
    decreases ops
  {
    if ops != [] {
      FreshStep(s, ops[0], sender);
      FreshIdsConsecutive(Step(s, ops[0]), ops[1..], sender);
    }
  }

  /** From an empty store: exactly 0, 1, ..., next-1. */
  lemma SequenceGapFree(ops: seq<Op>, sender: Bytes)
    ensures StoreOk(Run(EMPTY, ops))
    ensures FreshIds(EMPTY, ops, sender) == Range(0, NextId(Run(EMPTY, ops), sender))
  {
    RunKeepsStoreOk(EMPTY, ops);
    FreshIdsConsecutive(EMPTY, ops, sender);
  }

  /** Offering a stored job again, with its own digest and id, is never a fresh acceptance,
      never charges and never advances a sequence, even when the job has meanwhile been
      pruned or the message id reused: stored ids stay below next. */
  lemma ReofferNeverFresh(s: Store, ops: seq<Op>, k: Bytes, target: Bytes, charge: Charge)
    requires StoreOk(s) && k in s.accepted
    ensures var m := s.accepted[k];
            var later := Run(s, ops);
            var r := Accept(later, Request(m.sender, m.senderMsgId, m.messageId, m.digest, target, m.data, charge));
            !r.Fresh() && !r.charged && r.store.next == later.next
  {
    assert RecordOk(s, k);
    FreshIdsConsecutive(s, ops, s.accepted[k].sender);
  }

  // ---------------------------------------------------------------- lifetime

  /** What never changes about a job: everything but its target, status and finality. */
  predicate SameJob(a: Accepted, b: Accepted) {
    a == b.(target := a.target, status := a.status, final := a.final)
  }

  /** The store holds the job, with whatever target and status. */
  predicate Keeps(s: Store, k: Bytes, job: Accepted) {
    k in s.accepted && SameJob(s.accepted[k], job)
  }

  /** No prune of the run comes when the job has expired. */
  ghost predicate PrunedBefore(ops: seq<Op>, job: Accepted) {
    forall i :: 0 <= i < |ops| && ops[i].DoPrune? ==> !Expired(job, ops[i].now)
  }

  lemma SameJobExpires(a: Accepted, b: Accepted, now: int)
    requires SameJob(a, b)
    ensures Expired(a, now) <==> Expired(b, now)
  {
  }

  /** A stored job outlives any operation but a prune when it has expired. */
  lemma StepKeepsJob(s: Store, op: Op, k: Bytes)
    requires StoreOk(s) && k in s.accepted
    ensures Keeps(Step(s, op), k, s.accepted[k]) <==> !(op.DoPrune? && Expired(s.accepted[k], op.now))
    ensures k in Step(s, op).accepted ==> SameJob(Step(s, op).accepted[k], s.accepted[k])
  {
  }

  /** A job that is gone does not come back: its number is used up. */
  lemma StepGone(s: Store, op: Op, k: Bytes, job: Accepted)
    requires StoreOk(s) && !Keeps(s, k, job) && job.senderMsgId < NextId(s, job.sender)
    ensures !Keeps(Step(s, op), k, job) && job.senderMsgId < NextId(Step(s, op), job.sender)
  {
    FreshStep(s, op, job.sender);
    if k in s.accepted { StepKeepsJob(s, op, k); }
  }

  lemma {:induction false} GoneForGood(s: Store, ops: seq<Op>, k: Bytes, job: Accepted)
    requires StoreOk(s) && !Keeps(s, k, job) && job.senderMsgId < NextId(s, job.sender)
    ensures !Keeps(Run(s, ops), k, job)
    decreases ops
  {
    if ops != [] {
      StepKeepsStoreOk(s, ops[0]);
      StepGone(s, ops[0], k, job);
      GoneForGood(Step(s, ops[0]), ops[1..], k, job);
    }
  }

  lemma PrunedBeforeNext(ops: seq<Op>, job: Accepted)
    requires ops != []
    ensures PrunedBefore(ops, job) <==>
      !(ops[0].DoPrune? && Expired(job, ops[0].now)) && PrunedBefore(ops[1..], job)
  {
    if PrunedBefore(ops[1..], job) && !(ops[0].DoPrune? && Expired(job, ops[0].now)) {
      forall i | 0 <= i < |ops| && ops[i].DoPrune? ensures !Expired(job, ops[i].now) {
        assert i == 0 || ops[i] == ops[1..][i - 1];
      }
    }
  }

  lemma {:induction false} KeepsWhile(s: Store, ops: seq<Op>, k: Bytes, job: Accepted)
    requires StoreOk(s) && Keeps(s, k, job)
    ensures Keeps(Run(s, ops), k, job) <==> PrunedBefore(ops, job)
    decreases ops
  {
    if ops != [] {
      var t := Step(s, ops[0]);
      StepKeepsStoreOk(s, ops[0]);
      PrunedBeforeNext(ops, job);
      StepKeepsJob(s, ops[0], k);
      if ops[0].DoPrune? { SameJobExpires(s.accepted[k], job, ops[0].now); }
      if Keeps(t, k, job) {
        KeepsWhile(t, ops[1..], k, job);
      } else {
        assert RecordOk(s, k);
        GoneForGood(t, ops[1..], k, job);
      }
    }
  }

  /** A job is durable: after any run it is in the store, as the same message under the same
      number, if and only if no prune of the run came when it had expired. */
  lemma JobDurable(s: Store, ops: seq<Op>, k: Bytes)
    requires StoreOk(s) && k in s.accepted
    ensures Keeps(Run(s, ops), k, s.accepted[k]) <==> PrunedBefore(ops, s.accepted[k])
  {
    KeepsWhile(s, ops, k, s.accepted[k]);
  }

  // ------------------------------------------------------------ when it expires

  function HexChar(v: nat): byte
    requires v < 16
  {
    if v < 10 then 48 + v else 87 + v
  }

  /** Two lower-case hexadecimal digits for every byte. */
  function HexOf(b: Bytes): (h: Bytes)
    ensures |h| == 2 * |b| && forall i :: 0 <= i < |h| ==> LowerHex(h[i])
  {
    if b == [] then []
    else HexOf(b[..|b| - 1]) + [HexChar(b[|b| - 1] / 16), HexChar(b[|b| - 1] % 16)]
  }

  lemma HexValueNext(h: Bytes, x: byte, y: byte)
    requires (forall i :: 0 <= i < |h| ==> LowerHex(h[i])) && LowerHex(x) && LowerHex(y)
    ensures HexValue(h + [x, y]) == 256 * HexValue(h) + 16 * HexDigit(x) + HexDigit(y)
  {
    var all := h + [x, y];
    assert all[..|all| - 1] == h + [x];
    assert (h + [x])[..|h|] == h;
  }

  lemma {:induction false} HexValueOf(b: Bytes)
    ensures HexValue(HexOf(b)) == FromBigEndian(b)
  {
    if b != [] {
      var (front, last) := (b[..|b| - 1], b[|b| - 1]);
      HexValueOf(front);
      HexValueNext(HexOf(front), HexChar(last / 16), HexChar(last % 16));
    }
  }

  lemma HexPair(x: byte, y: byte)
    requires LowerHex(x) && LowerHex(y)
    ensures var v := 16 * HexDigit(x) + HexDigit(y); v < 256 && HexChar(v / 16) == x && HexChar(v % 16) == y
  {
    var v := 16 * HexDigit(x) + HexDigit(y);
    assert v / 16 == HexDigit(x) && v % 16 == HexDigit(y);
  }

  lemma {:induction false} HexOnto(h: Bytes) returns (b: Bytes)
    requires |h| % 2 == 0 && forall i :: 0 <= i < |h| ==> LowerHex(h[i])
    ensures HexOf(b) == h && 2 * |b| == |h|
    decreases |h|
  {
    if h == [] {
      b := [];
    } else {
      var (front, x, y) := (h[..|h| - 2], h[|h| - 2], h[|h| - 1]);
      var rest := HexOnto(front);
      HexPair(x, y);
      b := rest + [16 * HexDigit(x) + HexDigit(y)];
      assert b[..|rest|] == rest && h == front + [x, y];
    }
  }

  /** The message id begins with the digits of eight big-endian bytes that count microseconds. */
  predicate MadeAt(m: Accepted, micros: nat) {
    ValidMessageId(m.messageId) && micros < TWO64 && m.messageId[..16] == HexOf(BigEndian(micros, 8))
  }

  /** Every message id does. */
  lemma MadeSometime(m: Accepted) returns (micros: nat)
    requires ValidMessageId(m.messageId)
    ensures MadeAt(m, micros)
  {
    var b := HexOnto(m.messageId[..16]);
    FromBigEndianRoundTrip(b);
    Pow256Word();
    micros := FromBigEndian(b);
  }

  predicate IsDirect(m: Accepted) {
    DecodeEnvelope(m.data).Ok? && DecodeEnvelope(m.data).value.kind == DIRECT
  }

  /** A Direct job expires 24 hours after its message id was made, by a clock that counts
      nanoseconds; ids outside the clock's range, and jobs of other kinds, never expire. */
  lemma ExpiresExact(m: Accepted, micros: nat, now: int)
    requires MadeAt(m, micros)
    ensures Expired(m, now) <==>
      IsDirect(m) && 0 < micros < 0x8000_0000_0000_0000 && micros * 1000 + 86_400_000_000_000 <= now
  {
    HexValueOf(BigEndian(micros, 8));
    Pow256Word();
    BigEndianRoundTrip(micros, 8);
  }

  /** So a job stays through its first 24 hours whatever is accepted, acknowledged or pruned, and a
      job of another kind stays for good. */
  lemma FirstDaySafe(s: Store, ops: seq<Op>, k: Bytes, micros: nat)
    requires StoreOk(s) && k in s.accepted && MadeAt(s.accepted[k], micros)
    requires IsDirect(s.accepted[k]) ==>
      forall i :: 0 <= i < |ops| && ops[i].DoPrune? ==> ops[i].now < micros * 1000 + 86_400_000_000_000
    ensures Keeps(Run(s, ops), k, s.accepted[k])
  {
    forall i | 0 <= i < |ops| && ops[i].DoPrune? ensures !Expired(s.accepted[k], ops[i].now) {
      ExpiresExact(s.accepted[k], micros, ops[i].now);
    }
    JobDurable(s, ops, k);
  }

  /** And the first prune after that drops a Direct job, and no number with it. */
  lemma DayOver(s: Store, k: Bytes, micros: nat, now: int)
    requires k in s.accepted && MadeAt(s.accepted[k], micros) && IsDirect(s.accepted[k])
    requires 0 < micros < 0x8000_0000_0000_0000 && micros * 1000 + 86_400_000_000_000 <= now
    ensures k !in Prune(s, now).accepted && Prune(s, now).next == s.next
  {
    ExpiresExact(s.accepted[k], micros, now);
  }

  // ------------------------------------------------------- what a call answers

  /** An ack from the job's target, under its number, is recorded, and leaves the job pending
      exactly if it is neither OK nor a rejection; so a later retryable ack reopens a closed job.
      Nothing else changes. */
  lemma AckExact(s: Store, sender: Bytes, messageId: Bytes, status: byte)
    requires StoreOk(s) && Key(sender, messageId) in s.accepted
    ensures var key := Key(sender, messageId);
      var job := s.accepted[key];
      var r := MarkAck(s, sender, messageId, job.senderMsgId, job.target, status);
      && r.error == None && r.store.next == s.next && r.store.accepted.Keys == s.accepted.Keys
      && (forall k :: k in s.accepted && k != key ==> r.store.accepted[k] == s.accepted[k])
      && SameJob(r.store.accepted[key], job) && r.store.accepted[key].target == job.target
      && r.store.accepted[key].status == status
      && (r.store.accepted[key] in PendingSet(r.store) <==> status != ACK_OK && status != ACK_REJECTED)
  {
    var key := Key(sender, messageId);
    var job := s.accepted[key];
    var r := MarkAck(s, sender, messageId, job.senderMsgId, job.target, status).store;
    MarkAckKeepsStoreOk(s, sender, messageId, job.senderMsgId, job.target, status);
    if r.accepted[key] in PendingSet(r) {
      var k :| k in r.accepted && !r.accepted[k].final && r.accepted[k] == r.accepted[key];
      assert RecordOk(r, k);
    }
  }

  /** An ack for a job that is not stored, under another number or from another core changes
      nothing and says so. */
  lemma StrayAck(s: Store, sender: Bytes, messageId: Bytes, id: u64, core: Bytes, status: byte)
    ensures var key := Key(sender, messageId);
      var r := MarkAck(s, sender, messageId, id, core, status);
      && (r.error == None <==> key in s.accepted && s.accepted[key].senderMsgId == id && s.accepted[key].target == core)
      && (r.error != None ==> r.store == s)
      && (key in s.accepted && s.accepted[key].senderMsgId == id && r.error != None ==>
           r.error == Some(InvalidEnvelope))
      && (key in s.accepted && s.accepted[key].senderMsgId != id ==> r.error == Some(InvalidSequence))
      && (key !in s.accepted ==> r.error == Some(InvalidSequence))
  {
  }

  /** A new message is filed as offered and pending, under the number it claims, which is then used
      up; a charge is made exactly if one is asked for. */
  lemma FreshFiled(s: Store, q: Request)
    requires Accept(s, q).Fresh()
    ensures var r := Accept(s, q);
      var key := Key(q.sender, q.messageId);
      && key !in s.accepted && key in r.store.accepted && r.outcome.record == r.store.accepted[key]
      && r.store.accepted[key] == Accepted(q.sender, q.senderMsgId, q.messageId, q.digest, q.target, q.data, false, 0)
      && r.outcome.record in PendingSet(r.store)
      && (forall k :: k in s.accepted ==> k in r.store.accepted && r.store.accepted[k] == s.accepted[k])
      && (forall k :: k in r.store.accepted ==> k == key || k in s.accepted)
      && (forall a :: NextId(r.store, a) == NextId(s, a) + if a == q.sender then 1 else 0)
      && (r.charged <==> q.charge != NoCharge)
  {
  }

  /** A message id that is stored is answered from the store, without a charge: with the stored job
      if digest and number agree, with a refusal otherwise. A refusal of any kind stores nothing,
      and has charged only if the charge itself was refused. */
  lemma RepeatAnswered(s: Store, q: Request)
    ensures var r := Accept(s, q);
      var key := Key(q.sender, q.messageId);
      && (r.outcome.Refused? ==> r.store == s && (r.charged <==> r.outcome.error == ChargeRefused))
      && (ValidMessageId(q.messageId) && key in s.accepted ==>
            && !r.charged && r.store.next == s.next && !r.Fresh()
            && (r.outcome.Admitted? <==>
                  s.accepted[key].digest == q.digest && s.accepted[key].senderMsgId == q.senderMsgId)
            && (r.outcome.Admitted? ==>
                  && SameJob(r.outcome.record, s.accepted[key])
                  && r.outcome.record.status == s.accepted[key].status
                  && r.outcome.record.target ==
                     if s.accepted[key].final || q.target == [] then s.accepted[key].target else q.target))
  {
  }

  // ---------------------------------------------------------- the store itself

  function PendingAmong(accepted: map<Bytes, Accepted>, keys: set<Bytes>): set<Accepted>
    requires keys <= accepted.Keys
  {
    set k | k in keys && !accepted[k].final :: accepted[k]
  }

  ghost predicate DistinctJobs(accepted: map<Bytes, Accepted>) {
    forall j, k :: j in accepted && k in accepted && j != k ==> accepted[j] != accepted[k]
  }

  /** A job's own fields give its key, so different keys hold different jobs. */
  lemma StoredJobsDistinct(s: Store)
    requires StoreOk(s)
    ensures DistinctJobs(s.accepted)
  {
    forall j, k | j in s.accepted && k in s.accepted && j != k ensures s.accepted[j] != s.accepted[k] {
      assert RecordOk(s, j) && RecordOk(s, k);
    }
  }

  /** Taking one key out of a set of keys takes at most its own job out of the pending ones. */
  lemma PendingWithout(accepted: map<Bytes, Accepted>, keys: set<Bytes>, k: Bytes)
    requires DistinctJobs(accepted) && keys <= accepted.Keys && k in keys
    ensures multiset(PendingAmong(accepted, keys)) ==
            (if accepted[k].final then multiset{} else multiset{accepted[k]}) +
              multiset(PendingAmong(accepted, keys - {k}))
  {
    var before, after := PendingAmong(accepted, keys), PendingAmong(accepted, keys - {k});
    if accepted[k].final {
      assert after == before;
    } else {
      assert before == after + {accepted[k]};
      assert accepted[k] !in after;
    }
  }

  class MemoryStore {
    var next: map<Bytes, u64>
    var accepted: map<Bytes, Accepted>

    ghost function View(): Store
      reads this
    {
      Store(next, accepted)
    }

    ghost predicate Valid()
      reads this
    {
      StoreOk(View())
    }

    constructor ()
      ensures Valid() && View() == EMPTY
    {
      next := map[];
      accepted := map[];
    }

    /** The one number the store will take next from the account: a new message id is freshly
        accepted under it, unless the sequence is exhausted or the charge fails, and under no
        other number. */
    method NextSenderMsgId(sender: Bytes) returns (id: u64)
      ensures id == NextId(View(), sender)
      ensures forall q: Request :: q.sender == sender && Key(sender, q.messageId) !in accepted ==>
        (Accept(View(), q).Fresh() <==>
         ValidMessageId(q.messageId) && q.senderMsgId == id != LAST_ID && q.charge != Charges(false))
    {
      id := if sender in next then next[sender] else 0;
    }

    method AcceptMessage(q: Request) returns (outcome: Outcome, charged: bool)
      requires Valid()
      modifies this
      ensures Valid()
      ensures AcceptResult(View(), outcome, charged) == Accept(old(View()), q)
    {
      outcome, charged := UpdateMaps(q);
      AcceptKeepsStoreOk(old(View()), q);
    }

    method UpdateMaps(q: Request) returns (outcome: Outcome, charged: bool)
      modifies this
      ensures AcceptResult(View(), outcome, charged) == Accept(old(View()), q)
    {
      charged := false;
      if !ValidMessageId(q.messageId) { return Refused(InvalidEnvelope), false; }
      var id := Key(q.sender, q.messageId);
      if id in accepted {
        var previous := accepted[id];
        if previous.digest != q.digest || previous.senderMsgId != q.senderMsgId {
          return Refused(InvalidSequence), false;
        }
        if !previous.final && q.target != [] && previous.target != q.target {
          previous := previous.(target := q.target);
          accepted := accepted[id := previous];
        }
        return Admitted(previous, true), false;
      }
      var expected := if q.sender in next then next[q.sender] else 0;
      if q.senderMsgId != expected { return Refused(InvalidSequence), false; }
      if expected == LAST_ID { return Refused(InvalidSequence), false; }
      if q.charge != NoCharge {
        charged := true;
        if !q.charge.ok { return Refused(ChargeRefused), charged; }
      }
      var record := Accepted(q.sender, q.senderMsgId, q.messageId, q.digest, q.target, q.data, false, 0);
      accepted := accepted[id := record];
      next := next[q.sender := expected + 1];
      outcome := Admitted(record, false);
    }

    method Acknowledge(sender: Bytes, messageId: Bytes, senderMsgId: u64, sourceCore: Bytes, status: byte)
      returns (error: Option<MsgError>)
      requires Valid()
      modifies this
      ensures Valid()
      ensures AckResult(View(), error) == MarkAck(old(View()), sender, messageId, senderMsgId, sourceCore, status)
    {
      MarkAckKeepsStoreOk(View(), sender, messageId, senderMsgId, sourceCore, status);
      var id := Key(sender, messageId);
      if id !in accepted || accepted[id].senderMsgId != senderMsgId { return Some(InvalidSequence); }
      var job := accepted[id];
      if job.target != sourceCore { return Some(InvalidEnvelope); }
      job := job.(status := status);
      job := job.(final := status == ACK_OK || status == ACK_REJECTED);
      accepted := accepted[id := job];
      error := None;
    }

    /** Every unfinished job, once each, in no particular order. */
    method Pending() returns (pending: seq<Accepted>)
      requires Valid()
      ensures multiset(pending) == multiset(PendingSet(View()))
    {
      pending := [];
      StoredJobsDistinct(View());
      assert PendingAmong(accepted, accepted.Keys) == PendingSet(View());
      var todo := accepted.Keys;
      while todo != {}
        invariant todo <= accepted.Keys
        invariant multiset(pending) + multiset(PendingAmong(accepted, todo)) == multiset(PendingSet(View()))
        decreases |todo|
      {
        var k :| k in todo;
        PendingWithout(accepted, todo, k);
        if !accepted[k].final {
          pending := pending + [accepted[k]];
        }
        todo := todo - {k};
      }
    }

    method PruneExpiredDirect(now: int)
      requires Valid()
      modifies this
      ensures Valid()
      ensures View() == Prune(old(View()), now)
    {
      PruneKeepsStoreOk(View(), now);
      DeleteWhere(m => Expired(m, now));
    }

    method DeleteWhere(expired: Accepted -> bool)
      modifies this
      ensures next == old(next)
      ensures accepted == map k | k in old(accepted) && !expired(old(accepted)[k]) :: old(accepted)[k]
    {
      ghost var before := accepted;
      var todo := accepted.Keys;
      while todo != {}
        invariant next == old(next)
        invariant todo <= before.Keys
        invariant accepted == map k | k in before && (k in todo || !expired(before[k])) :: before[k]
        decreases |todo|
      {
        var k :| k in todo;
        if expired(accepted[k]) {
          accepted := accepted - {k};
        }
        todo := todo - {k};
      }
    }
  }
}
