/** Retrying durable jobs: re-resolve where the recipient lives now, then route again. */
module Retry {
  import opened Framing
  import opened MessageCodec
  import opened AcceptanceStore

  /** Which core serves an account; an account may be unbound. */
  type Bindings = map<Bytes, Bytes>

  function CoreFor(b: Bindings, account: Bytes): Option<Bytes> {
    if account in b && b[account] != [] then Some(b[account]) else None
  }

  /** Whom a stored job is for: unreadable, not addressed to an account, or a recipient. */
  function Destination(data: Bytes): Result<Option<Bytes>> {
    match DecodeEnvelope(data)
    case Err(e) => Err(e)
    case Ok(e) =>
      if e.kind != DIRECT then Ok(None)
      else
        match DecodeDirect(e.payload)
        case Err(x) => Err(x)
        case Ok(m) => Ok(Some(m.recipient))
  }

  datatype Refreshed = Refreshed(store: Store, outcome: Result<Accepted>)

  /** Offer a job again with the target its recipient is bound to now. */
  function Reoffer(job: Accepted, target: Bytes): Request {
    Request(job.sender, job.senderMsgId, job.messageId, job.digest, target, job.data, NoCharge)
  }

  function Refresh(destination: Bytes -> Result<Option<Bytes>>, b: Bindings, s: Store, job: Accepted): Refreshed {
    match destination(job.data)
    case Err(e) => Refreshed(s, Err(e))
    case Ok(None) => Refreshed(s, Ok(job))
    case Ok(Some(recipient)) =>
      match CoreFor(b, recipient)
      case None => Refreshed(s, Err(BindingNotFound))
      case Some(target) =>
        if target == job.target then Refreshed(s, Ok(job))
        else
          var r := Accept(s, Reoffer(job, target));
          match r.outcome
          case Refused(e) => Refreshed(s, Err(e))
          case Admitted(record, _) => Refreshed(r.store, Ok(record))
  }

  /** Refreshing a job listed earlier never admits it a second time: no charge, no sequence
      number, no new record, whatever happened to the store since it was listed. */
  lemma RefreshNeverAdmits(destination: Bytes -> Result<Option<Bytes>>, b: Bindings, s: Store, ops: seq<Op>, k: Bytes)
    requires StoreOk(s) && k in s.accepted
    ensures var later := Run(s, ops);
            var r := Refresh(destination, b, later, s.accepted[k]).store;
            r.next == later.next && r.accepted.Keys == later.accepted.Keys && StoreOk(r)
  {
    var later, job := Run(s, ops), s.accepted[k];
    RunKeepsStoreOk(s, ops);
    match destination(job.data)
    case Ok(Some(recipient)) =>
      match CoreFor(b, recipient) {
        case Some(target) =>
          ReofferNeverFresh(s, ops, k, target, NoCharge);
          AcceptKeepsStoreOk(later, Reoffer(job, target));
        case None =>
      }
    case Ok(None) =>
    case Err(_) =>
  }

  /** What a refreshed job will be routed to. A refresh that succeeds sends a Direct job to
      its recipient's current core exactly when the stored job was not closed in the
      meantime with another target. */
  lemma RefreshTarget(destination: Bytes -> Result<Option<Bytes>>, b: Bindings, s: Store, job: Accepted,
                      recipient: Bytes)
    requires destination(job.data) == Ok(Some(recipient)) && CoreFor(b, recipient).Some?
    requires Refresh(destination, b, s, job).outcome.Ok?
    requires job.senderMsgId < NextId(s, job.sender)
    ensures var target := CoreFor(b, recipient).value;
            var key := Key(job.sender, job.messageId);
            Refresh(destination, b, s, job).outcome.value.target == target <==>
            job.target == target || !s.accepted[key].final || s.accepted[key].target == target
  {
  }

  /** The bytes of a Direct message in its envelope say whom it is for. */
  lemma DirectDestination(core: Bytes, m: DirectMessage)
    requires DirectOk(m) && EncodeEnvelope(Envelope(DIRECT, core, DirectBytes(m), [])).Ok?
    ensures Destination(EncodeEnvelope(Envelope(DIRECT, core, DirectBytes(m), [])).value) == Ok(Some(m.recipient))
  {
    EnvelopeRoundTrip(Envelope(DIRECT, core, DirectBytes(m), []));
    DirectRoundTrip(m);
  }

  /** A job of any other kind keeps its target whatever is bound, and its store; one whose data
      or Direct message is unreadable is not sent. */
  lemma OtherJobsKeepTarget(b: Bindings, s: Store, job: Accepted)
    ensures DecodeEnvelope(job.data).Ok? && DecodeEnvelope(job.data).value.kind != DIRECT ==>
      Refresh(Destination, b, s, job) == Refreshed(s, Ok(job))
    ensures DecodeEnvelope(job.data).Err? ==> Refresh(Destination, b, s, job).outcome.Err?
    ensures DecodeEnvelope(job.data).Ok? && DecodeEnvelope(job.data).value.kind == DIRECT ==>
      (DecodeDirect(DecodeEnvelope(job.data).value.payload).Err? ==> Refresh(Destination, b, s, job).outcome.Err?)
  {
  }

  /** Where a job stands after it was accepted for `home` by a store that awaited it, listed, and
      acknowledged there. */
  ghost predicate ClosedAt(s0: Store, q: Request, home: Bytes, listed: Accepted, s: Store) {
    var accepted := Accept(s0, q);
    && q.target == home && accepted.Fresh() && listed == accepted.outcome.record && listed in PendingSet(accepted.store)
    && s == MarkAck(accepted.store, q.sender, q.messageId, q.senderMsgId, home, ACK_OK).store
  }

  /** It does happen, with any Direct message and from any store that awaits it: accepted for one
      core, listed by a retry pass, acknowledged there, its recipient rebound, and then refreshed,
      it is sent to the home core although its recipient is bound to another. */
  lemma ClosedJobKeepsTarget(s0: Store, core: Bytes, m: DirectMessage, digest: Bytes, home: Bytes, next: Bytes,
                             b: Bindings)
    requires StoreOk(s0) && NextId(s0, m.sender) == m.senderMsgId < LAST_ID
    requires Key(m.sender, m.messageId) !in s0.accepted
    requires DirectOk(m) && |digest| == DIGEST_SIZE && EncodeEnvelope(Envelope(DIRECT, core, DirectBytes(m), [])).Ok?
    requires home != [] && next != [] && home != next && CoreFor(b, m.recipient) == Some(next)
    ensures
      var data := EncodeEnvelope(Envelope(DIRECT, core, DirectBytes(m), [])).value;
      var q := Request(m.sender, m.senderMsgId, m.messageId, digest, home, data, NoCharge);
      var listed := NewRecord(q);
      var s := MarkAck(Accept(s0, q).store, m.sender, m.messageId, m.senderMsgId, home, ACK_OK).store;
      && ClosedAt(s0, q, home, listed, s)
      && Destination(listed.data) == Ok(Some(m.recipient))
      && Refresh(Destination, b, s, listed).outcome.Ok?
      && Refresh(Destination, b, s, listed).outcome.value.target == home
  {
    DirectDestination(core, m);
    var data := EncodeEnvelope(Envelope(DIRECT, core, DirectBytes(m), [])).value;
    var q := Request(m.sender, m.senderMsgId, m.messageId, digest, home, data, NoCharge);
    var key := Key(m.sender, m.messageId);
    var s := MarkAck(Accept(s0, q).store, m.sender, m.messageId, m.senderMsgId, home, ACK_OK).store;
    assert Accept(s0, q).store.accepted[key] == NewRecord(q);
    assert s.accepted[key] == NewRecord(q).(status := ACK_OK, final := true);
  }

  // ------------------------------------------------------------ retry advice

  const NANOS_PER_MILLI: int := 1_000_000

  /** The wait recorded for an advised number of milliseconds, in 64-bit nanoseconds. */
  function Wait(ms: u64): int {
    Signed64(Signed64(ms) * NANOS_PER_MILLI)
  }

  /** The advice is recorded as given exactly when it fits the duration type. */
  lemma WaitExact(ms: u64)
    ensures Wait(ms) == ms * NANOS_PER_MILLI <==> ms <= 9_223_372_036_854
  {
  }

  // --------------------------------------------------------- the retry pass

  datatype Attempt =
    | RefreshFailed(job: Accepted, cause: MsgError)
    | Routed(job: Accepted, target: Bytes, data: Bytes, error: Option<MsgError>)

  function AttemptError(a: Attempt): Option<MsgError> {
    match a
    case RefreshFailed(_, e) => Some(e)
    case Routed(_, _, _, e) => e
  }

  function FirstError(attempts: seq<Attempt>): Option<MsgError> {
    if attempts == [] then None
    else if AttemptError(attempts[0]).Some? then AttemptError(attempts[0])
    else FirstError(attempts[1..])
  }

  lemma {:induction false} FirstErrorAppend(attempts: seq<Attempt>, a: Attempt)
    ensures FirstError(attempts + [a]) ==
            if FirstError(attempts).Some? then FirstError(attempts) else AttemptError(a)
  {
    if attempts != [] {
      assert (attempts + [a])[1..] == attempts[1..] + [a];
      FirstErrorAppend(attempts[1..], a);
    }
  }

  /** The first error is that of the first attempt that has one. */
  lemma {:induction false} FirstErrorExact(attempts: seq<Attempt>)
    ensures FirstError(attempts) == None <==> forall i :: 0 <= i < |attempts| ==> AttemptError(attempts[i]) == None
    ensures FirstError(attempts) != None ==>
      exists i :: 0 <= i < |attempts| && FirstError(attempts) == AttemptError(attempts[i]) &&
                  forall j :: 0 <= j < i ==> AttemptError(attempts[j]) == None
  {
    if attempts != [] && AttemptError(attempts[0]) == None {
      var rest := attempts[1..];
      FirstErrorExact(rest);
      assert forall j :: 0 < j < |attempts| ==> attempts[j] == rest[j - 1];
      if FirstError(rest) != None {
        var i :| 0 <= i < |rest| && FirstError(rest) == AttemptError(rest[i]) &&
                 forall j :: 0 <= j < i ==> AttemptError(rest[j]) == None;
        assert attempts[i + 1] == rest[i];
      }
    }
  }

  /** A job whose advised wait has not passed is skipped this time. */
  predicate Ready(notBefore: map<Bytes, int>, job: Accepted, now: int) {
    var key := Key(job.sender, job.messageId);
    key !in notBefore || notBefore[key] <= now
  }

  function JobKey(job: Accepted): Bytes {
    Key(job.sender, job.messageId)
  }

  // --------------------------------------------- a job and a store that moves on

  /** The store `s` comes after `s0`: numbers only grow, and what it still holds under a number
      given out by then is the job that `s0` held. */
  ghost predicate Since(s0: Store, s: Store) {
    && (forall sender :: NextId(s0, sender) <= NextId(s, sender))
    && (forall k :: k in s.accepted && s.accepted[k].senderMsgId < NextId(s0, s.accepted[k].sender) ==>
          k in s0.accepted && SameJob(s.accepted[k], s0.accepted[k]))
  }

  lemma StepSince(s0: Store, s: Store, op: Op)
    requires StoreOk(s) && Since(s0, s)
    ensures Since(s0, Step(s, op))
  {
    var t := Step(s, op);
    forall sender ensures NextId(s0, sender) <= NextId(t, sender) { FreshStep(s, op, sender); }
    forall k | k in t.accepted && t.accepted[k].senderMsgId < NextId(s0, t.accepted[k].sender)
      ensures k in s0.accepted && SameJob(t.accepted[k], s0.accepted[k])
    {
      StepRecord(s, op, k);
      if k !in s.accepted { FreshStep(s, op, t.accepted[k].sender); }
    }
  }

  /** An operation leaves a record the job it was, or files it freshly under the next number. */
  lemma StepRecord(s: Store, op: Op, k: Bytes)
    requires StoreOk(s) && k in Step(s, op).accepted
    ensures k in s.accepted ==> SameJob(Step(s, op).accepted[k], s.accepted[k])
    ensures k !in s.accepted ==>
      op.DoAccept? && FreshFor(s, op, op.request.sender) && Step(s, op).accepted[k] == NewRecord(op.request)
  {
  }

  lemma {:induction false} RunSince(s0: Store, s: Store, ops: seq<Op>)
    requires StoreOk(s) && Since(s0, s)
    ensures Since(s0, Run(s, ops)) && StoreOk(Run(s, ops))
    decreases ops
  {
    if ops != [] {
      StepKeepsStoreOk(s, ops[0]);
      StepSince(s0, s, ops[0]);
      RunSince(s0, Step(s, ops[0]), ops[1..]);
    }
  }

  /** The store was seen to hold the job. */
  ghost predicate Held(s0: Store, job: Accepted) {
    JobKey(job) in s0.accepted && s0.accepted[JobKey(job)] == job
  }

  /** Still stored under its own number, finished or not. */
  predicate Stored(s: Store, job: Accepted) {
    JobKey(job) in s.accepted && s.accepted[JobKey(job)].senderMsgId == job.senderMsgId
  }

  /** At most the target of one unfinished job differs. */
  ghost predicate OnlyTargetMoved(before: Store, after: Store, key: Bytes) {
    && after.next == before.next && after.accepted.Keys == before.accepted.Keys
    && (forall k ::
         k in before.accepted && (k != key || before.accepted[k].final) ==> after.accepted[k] == before.accepted[k])
    && (key in before.accepted ==> after.accepted[key] == before.accepted[key].(target := after.accepted[key].target))
  }

  /** When a refresh fails: the data is unreadable, the recipient is unbound, or its core has
      changed and the job is no longer stored. */
  predicate Unroutable(destination: Bytes -> Result<Option<Bytes>>, b: Bindings, s: Store, job: Accepted) {
    match destination(job.data)
    case Err(_) => true
    case Ok(None) => false
    case Ok(Some(recipient)) =>
      var core := CoreFor(b, recipient);
      core.None? || (core.value != job.target && !Stored(s, job))
  }

  /** Where a refreshed job goes: a Direct job to its recipient's core, unless that has changed
      and the job was closed meanwhile, with the target it had then; any other job to its target. */
  function Bound(destination: Bytes -> Result<Option<Bytes>>, b: Bindings, s: Store, job: Accepted): Bytes
    requires !Unroutable(destination, b, s, job)
  {
    match destination(job.data).value
    case None => job.target
    case Some(recipient) =>
      var core := CoreFor(b, recipient).value;
      if core == job.target || !s.accepted[JobKey(job)].final then core else s.accepted[JobKey(job)].target
  }

  /** What is stored under a job's key and number is that job. */
  lemma HeldIsSame(s0: Store, s: Store, job: Accepted)
    requires StoreOk(s0) && Held(s0, job) && StoreOk(s) && Since(s0, s) && Stored(s, job)
    ensures SameJob(s.accepted[JobKey(job)], job)
  {
    var key := JobKey(job);
    assert RecordOk(s0, key) && RecordOk(s, key);
    KeyInjective(s.accepted[key].sender, s.accepted[key].messageId, job.sender, job.messageId);
  }

  /** The job's number is given out, and what is stored under it is that job. */
  ghost predicate Fits(s: Store, job: Accepted) {
    && ValidMessageId(job.messageId) && job.senderMsgId < NextId(s, job.sender)
    && (Stored(s, job) ==> SameJob(s.accepted[JobKey(job)], job))
  }

  lemma HeldFits(s0: Store, s: Store, job: Accepted)
    requires StoreOk(s0) && Held(s0, job) && StoreOk(s) && Since(s0, s)
    ensures Fits(s, job)
  {
    assert RecordOk(s0, JobKey(job));
    assert job.senderMsgId < NextId(s0, job.sender) <= NextId(s, job.sender);
    if Stored(s, job) { HeldIsSame(s0, s, job); }
  }

  /** A job that fits a store fits it after any operation. */
  lemma StepFits(s: Store, op: Op, job: Accepted)
    requires StoreOk(s) && Fits(s, job)
    ensures Fits(Step(s, op), job)
  {
    FreshStep(s, op, job.sender);
    if Stored(Step(s, op), job) {
      StepRecord(s, op, JobKey(job));
      if JobKey(job) !in s.accepted {
        KeyInjective(op.request.sender, op.request.messageId, job.sender, job.messageId);
      }
    }
  }

  /** A job that is gone is refused: its number is used up. */
  lemma ReofferGone(s: Store, job: Accepted, target: Bytes)
    requires Fits(s, job) && !Stored(s, job)
    ensures var r := Accept(s, Reoffer(job, target)); r.store == s && r.outcome.Refused? && !r.charged
  {
  }

  /** Offering a job again at any later time is admitted exactly if it is still stored, and then
      moves the target of that one job while it is unfinished. */
  lemma ReofferExact(s: Store, job: Accepted, target: Bytes)
    requires Fits(s, job) && target != []
    ensures var r := Accept(s, Reoffer(job, target));
            && OnlyTargetMoved(s, r.store, JobKey(job)) && !r.Fresh() && !r.charged
            && (r.outcome.Admitted? <==> Stored(s, job))
            && (r.outcome.Admitted? ==>
                  && r.outcome.record.data == job.data
                  && r.outcome.record.target ==
                     if s.accepted[JobKey(job)].final then s.accepted[JobKey(job)].target else target)
  {
    if !Stored(s, job) { ReofferGone(s, job, target); }
  }

  /** What refreshing does to a job that fits the store. */
  lemma RefreshFits(destination: Bytes -> Result<Option<Bytes>>, b: Bindings, s: Store, job: Accepted)
    requires Fits(s, job)
    ensures var r := Refresh(destination, b, s, job);
            && OnlyTargetMoved(s, r.store, JobKey(job))
            && (r.outcome.Err? <==> Unroutable(destination, b, s, job))
            && (r.outcome.Ok? ==>
                  && r.outcome.value.data == job.data
                  && r.outcome.value.target == Bound(destination, b, s, job))
  {
    match destination(job.data)
    case Ok(Some(recipient)) =>
      if CoreFor(b, recipient).Some? { ReofferExact(s, job, CoreFor(b, recipient).value); }
    case _ =>
  }

  /** What refreshing a job does at any later time, whatever happened since it was listed: it
      succeeds exactly if the job is routable, sends the listed data to where it is bound, and
      changes nothing in the store but the target of that one job while unfinished. */
  lemma RefreshExact(destination: Bytes -> Result<Option<Bytes>>, b: Bindings, s0: Store, s: Store, job: Accepted)
    requires StoreOk(s0) && Held(s0, job) && StoreOk(s) && Since(s0, s)
    ensures var r := Refresh(destination, b, s, job);
            && OnlyTargetMoved(s, r.store, JobKey(job))
            && (r.outcome.Err? <==> Unroutable(destination, b, s, job))
            && (r.outcome.Ok? ==>
                  && r.outcome.value.data == job.data
                  && r.outcome.value.target == Bound(destination, b, s, job))
  {
    HeldFits(s0, s, job);
    RefreshFits(destination, b, s, job);
  }

  /** The store files where an open job was sent, so that the answer from there is the one that
      counts. */
  lemma RefreshFiles(destination: Bytes -> Result<Option<Bytes>>, b: Bindings, s: Store, job: Accepted,
                     recipient: Bytes)
    requires Fits(s, job) && Stored(s, job) && !s.accepted[JobKey(job)].final
    requires destination(job.data) == Ok(Some(recipient)) && CoreFor(b, recipient).Some?
    requires CoreFor(b, recipient).value != job.target
    ensures var r := Refresh(destination, b, s, job);
      && JobKey(job) in r.store.accepted && r.store.accepted[JobKey(job)].target == CoreFor(b, recipient).value
      && r.outcome == Ok(r.store.accepted[JobKey(job)])
  {
  }

  lemma RefreshSince(destination: Bytes -> Result<Option<Bytes>>, b: Bindings, s0: Store, s: Store, job: Accepted)
    requires StoreOk(s0) && Held(s0, job) && StoreOk(s) && Since(s0, s)
    ensures var r := Refresh(destination, b, s, job).store; StoreOk(r) && Since(s0, r)
  {
    var r := Refresh(destination, b, s, job).store;
    if r != s {
      var recipient := destination(job.data).value.value;
      var op := DoAccept(Reoffer(job, CoreFor(b, recipient).value));
      assert r == Step(s, op);
      StepKeepsStoreOk(s, op);
      StepSince(s0, s, op);
    }
  }

  // ------------------------------------------------- the pass, among other calls

  /** What the pass shares with the rest of the core. */
  datatype Scene = Scene(store: Store, notBefore: map<Bytes, int>, bindings: Bindings)

  /** What the rest of the core does between two of its locked calls: any operations on the
      store, any advice recorded or forgotten, any accounts rebound. */
  datatype Moment = Moment(ops: seq<Op>, notBefore: map<Bytes, int>, bindings: Bindings)

  function Meanwhile(s: Scene, m: Moment): Scene {
    Scene(Run(s.store, m.ops), m.notBefore, m.bindings)
  }

  /** One turn of the pass: the time it reads, what happens before its three calls, and what
      happens while its message is routed, with the error that reports. Routing to the own core
      delivers, acknowledges and closes the job before it returns. */
  datatype Turn = Turn(now: int, beforeReady: Moment, beforeResolve: Moment, beforeAccept: Moment,
                       routing: Moment, error: Option<MsgError>)

  /** An attempt with what it saw: the bindings it resolved by, and the store around its call. */
  datatype Trial = Trial(bindings: Bindings, before: Store, after: Store, attempt: Attempt)

  datatype Visit = Visit(job: Accepted, waits: map<Bytes, int>, now: int, trial: Option<Trial>)

  function AttemptOf(job: Accepted, r: Result<Accepted>, error: Option<MsgError>): Attempt {
    match r
    case Err(e) => RefreshFailed(job, e)
    case Ok(record) => Routed(job, record.target, record.data, error)
  }

  function VisitJob(destination: Bytes -> Result<Option<Bytes>>, s0: Scene, job: Accepted, t: Turn): (Scene, Visit) {
    var s1 := Meanwhile(s0, t.beforeReady);
    if !Ready(s1.notBefore, job, t.now) then (s1, Visit(job, s1.notBefore, t.now, None))
    else
      var s2 := Meanwhile(s1.(notBefore := s1.notBefore - {JobKey(job)}), t.beforeResolve);
      var s3 := Meanwhile(s2, t.beforeAccept);
      var r := Refresh(destination, s2.bindings, s3.store, job);
      var s4 := s3.(store := r.store);
      var trial := Trial(s2.bindings, s3.store, r.store, AttemptOf(job, r.outcome, t.error));
      (if r.outcome.Ok? then Meanwhile(s4, t.routing) else s4, Visit(job, s1.notBefore, t.now, Some(trial)))
  }

  /** A turn reports the error of the refresh that failed, or the one routing reported, or none if
      routing did not fail. */
  lemma TurnReports(destination: Bytes -> Result<Option<Bytes>>, s0: Scene, job: Accepted, t: Turn)
    ensures var visit := VisitJob(destination, s0, job, t).1;
      visit.trial.Some? ==>
        var seen := visit.trial.value;
        match Refresh(destination, seen.bindings, seen.before, job).outcome
        case Err(e) => AttemptError(seen.attempt) == Some(e)
        case Ok(_) => AttemptError(seen.attempt) == t.error
  {
  }

  /** The turns of a pass so far: `scenes` are the states between them. */
  ghost predicate Turns(destination: Bytes -> Result<Option<Bytes>>, world: nat -> Turn, jobs: seq<Accepted>,
                        scenes: seq<Scene>, visits: seq<Visit>) {
    && |scenes| == |visits| + 1 && |visits| <= |jobs|
    && forall i :: 0 <= i < |visits| ==> Turned(destination, scenes[i], jobs[i], world(i), scenes[i + 1], visits[i])
  }

  ghost predicate Turned(destination: Bytes -> Result<Option<Bytes>>, before: Scene, job: Accepted, t: Turn,
                         after: Scene, visit: Visit)
  {
    (after, visit) == VisitJob(destination, before, job, t)
  }

  /** A job is tried exactly if no advised wait stands in the way at its turn; a trial fails
      exactly if the job is unroutable then, else sends the listed data to where it is bound
      then; and its own call admits nothing, charges nothing and numbers nothing. */
  ghost predicate VisitOk(destination: Bytes -> Result<Option<Bytes>>, job: Accepted, v: Visit) {
    && v.job == job
    && (v.trial.Some? <==> Ready(v.waits, job, v.now))
    && (v.trial.Some? ==> TrialOk(destination, job, v.trial.value))
  }

  ghost predicate TrialOk(destination: Bytes -> Result<Option<Bytes>>, job: Accepted, t: Trial) {
    && t.attempt.job == job
    && OnlyTargetMoved(t.before, t.after, JobKey(job))
    && (t.attempt.RefreshFailed? <==> Unroutable(destination, t.bindings, t.before, job))
    && (t.attempt.Routed? ==>
          t.attempt.data == job.data && t.attempt.target == Bound(destination, t.bindings, t.before, job))
  }

  lemma VisitKeeps(destination: Bytes -> Result<Option<Bytes>>, listed: Store, s: Scene, job: Accepted, t: Turn)
    requires StoreOk(listed) && Held(listed, job) && StoreOk(s.store) && Since(listed, s.store)
    ensures var (after, visit) := VisitJob(destination, s, job, t);
            StoreOk(after.store) && Since(listed, after.store) && VisitOk(destination, job, visit)
  {
    var s1 := Meanwhile(s, t.beforeReady);
    RunSince(listed, s.store, t.beforeReady.ops);
    if Ready(s1.notBefore, job, t.now) {
      var s2 := Meanwhile(s1.(notBefore := s1.notBefore - {JobKey(job)}), t.beforeResolve);
      var s3 := Meanwhile(s2, t.beforeAccept);
      RunSince(listed, s1.store, t.beforeResolve.ops);
      RunSince(listed, s2.store, t.beforeAccept.ops);
      RefreshExact(destination, s2.bindings, listed, s3.store, job);
      RefreshSince(destination, s2.bindings, listed, s3.store, job);
      RunSince(listed, Refresh(destination, s2.bindings, s3.store, job).store, t.routing.ops);
    }
  }

  ghost predicate AllHeld(s: Store, jobs: seq<Accepted>) {
    forall i :: 0 <= i < |jobs| ==> Held(s, jobs[i])
  }

  /** Each of the first `n` jobs was visited once, in order, and as it should be. */
  ghost predicate PassOk(destination: Bytes -> Result<Option<Bytes>>, listed: Store, jobs: seq<Accepted>, n: nat,
                         store: Store, visits: seq<Visit>) {
    && StoreOk(store) && Since(listed, store)
    && n == |visits| <= |jobs| && forall i :: 0 <= i < n ==> VisitOk(destination, jobs[i], visits[i])
  }

  lemma PassOkNext(destination: Bytes -> Result<Option<Bytes>>, listed: Store, jobs: seq<Accepted>, n: nat,
                   store: Store, visits: seq<Visit>, after: Store, visit: Visit)
    requires PassOk(destination, listed, jobs, n, store, visits) && n < |jobs|
    requires StoreOk(after) && Since(listed, after) && VisitOk(destination, jobs[n], visit)
    ensures PassOk(destination, listed, jobs, n + 1, after, visits + [visit])
  {
  }

  lemma TurnedKeeps(destination: Bytes -> Result<Option<Bytes>>, listed: Store, before: Scene, job: Accepted, t: Turn,
                    after: Scene, visit: Visit)
    requires StoreOk(listed) && Held(listed, job) && StoreOk(before.store) && Since(listed, before.store)
    requires Turned(destination, before, job, t, after, visit)
    ensures StoreOk(after.store) && Since(listed, after.store) && VisitOk(destination, job, visit)
  {
    VisitKeeps(destination, listed, before, job, t);
  }

  /** Whatever the rest of the core does in between, a pass over listed jobs takes them in order,
      each once, and every turn is as it should be. */
  lemma {:induction false} PassExact(destination: Bytes -> Result<Option<Bytes>>, world: nat -> Turn,
                                     jobs: seq<Accepted>,
                                     scenes: seq<Scene>, visits: seq<Visit>, listed: Store, n: nat)
    requires Turns(destination, world, jobs, scenes, visits) && n <= |visits|
    requires StoreOk(listed) && AllHeld(listed, jobs) && StoreOk(scenes[0].store) && Since(listed, scenes[0].store)
    ensures PassOk(destination, listed, jobs, n, scenes[n].store, visits[..n])
    decreases n
  {
    if n > 0 {
      PassExact(destination, world, jobs, scenes, visits, listed, n - 1);
      assert Held(listed, jobs[n - 1]);
      assert Turned(destination, scenes[n - 1], jobs[n - 1], world(n - 1), scenes[n], visits[n - 1]);
      TurnedKeeps(destination, listed, scenes[n - 1], jobs[n - 1], world(n - 1), scenes[n], visits[n - 1]);
      PassOkNext(destination, listed, jobs, n - 1, scenes[n - 1].store, visits[..n - 1], scenes[n].store,
        visits[n - 1]);
      assert visits[..n] == visits[..n - 1] + [visits[n - 1]];
    }
  }

  lemma TurnsNext(destination: Bytes -> Result<Option<Bytes>>, world: nat -> Turn, jobs: seq<Accepted>,
                  scenes: seq<Scene>, visits: seq<Visit>, after: Scene, visit: Visit)
    requires Turns(destination, world, jobs, scenes, visits) && |visits| < |jobs|
    requires Turned(destination, scenes[|visits|], jobs[|visits|], world(|visits|), after, visit)
    ensures Turns(destination, world, jobs, scenes + [after], visits + [visit])
  {
  }

  function Attempts(visits: seq<Visit>): seq<Attempt> {
    if visits == [] then []
    else
      var last := visits[|visits| - 1];
      Attempts(visits[..|visits| - 1]) + if last.trial.Some? then [last.trial.value.attempt] else []
  }

  lemma {:induction false} PendingHeld(s: Store, jobs: seq<Accepted>)
    requires StoreOk(s) && multiset(jobs) == multiset(PendingSet(s))
    ensures AllHeld(s, jobs)
  {
    forall i | 0 <= i < |jobs| ensures Held(s, jobs[i]) {
      assert jobs[i] in multiset(jobs);
      var k :| k in s.accepted && s.accepted[k] == jobs[i] && !s.accepted[k].final;
      assert RecordOk(s, k);
    }
  }

  lemma SinceItself(s: Store)
    ensures Since(s, s)
  {
  }

  /** The sender side of the manager: its jobs, the waits peers asked for, and what it tried. */
  class MessageManager {
    var store: MemoryStore
    var bindings: Bindings
    var retryNotBefore: map<Bytes, int>
    ghost var visits: seq<Visit>

    constructor (bindings: Bindings)
      ensures fresh(store) && store.Valid() && store.View() == EMPTY
      ensures this.bindings == bindings && retryNotBefore == map[] && visits == []
    {
      store := new MemoryStore();
      this.bindings := bindings;
      retryNotBefore := map[];
      visits := [];
    }

    ghost function At(): Scene
      reads this, store
    {
      Scene(store.View(), retryNotBefore, bindings)
    }

    /** After a retryable ack with advice its job is not ready before the advised wait is over, and
        ready from then on; after any other ack it is ready at once; other jobs are as before. An
        ack without a message id changes nothing. */
    method RecordRetryAdvice(ack: MessageAck, now: int)
      modifies this`retryNotBefore
      ensures forall job: Accepted, t: int :: Ready(retryNotBefore, job, t) <==>
        if JobKey(job) != Key(ack.sender, ack.messageId) || !ValidMessageId(ack.messageId) then
          Ready(old(retryNotBefore), job, t)
        else if ack.status == ACK_RETRYABLE && ack.retryAfterMs != 0 then t >= now + Wait(ack.retryAfterMs)
        else true
    {
      if !ValidMessageId(ack.messageId) { return; }
      var key := Key(ack.sender, ack.messageId);
      if ack.status == ACK_RETRYABLE && ack.retryAfterMs != 0 {
        retryNotBefore := retryNotBefore[key := now + Wait(ack.retryAfterMs)];
        return;
      }
      retryNotBefore := retryNotBefore - {key};
    }

    method RetryReady(job: Accepted, now: int) returns (ready: bool)
      modifies this`retryNotBefore
      ensures ready == Ready(old(retryNotBefore), job, now)
      ensures retryNotBefore == if ready then old(retryNotBefore) - {JobKey(job)} else old(retryNotBefore)
    {
      var key := Key(job.sender, job.messageId);
      if key !in retryNotBefore { return true; }
      if now < retryNotBefore[key] { return false; }
      retryNotBefore := retryNotBefore - {key};
      ready := true;
    }

    /** Other calls have their turn. */
    method Yield(m: Moment)
      requires store.Valid()
      modifies this`retryNotBefore, this`bindings, store
      ensures store.Valid() && At() == Meanwhile(old(At()), m)
    {
      var i := 0;
      while i < |m.ops|
        invariant 0 <= i <= |m.ops| && store.Valid()
        invariant Run(store.View(), m.ops[i..]) == Run(old(store.View()), m.ops)
        invariant bindings == old(bindings) && retryNotBefore == old(retryNotBefore)
      {
        assert m.ops[i..][1..] == m.ops[i + 1..];
        Perform(m.ops[i]);
        i := i + 1;
      }
      bindings, retryNotBefore := m.bindings, m.notBefore;
    }

    method Perform(op: Op)
      requires store.Valid()
      modifies store
      ensures store.Valid() && store.View() == Step(old(store.View()), op)
    {
      match op
      case DoAccept(q) => var _, _ := store.AcceptMessage(q);
      case DoMarkAck(sender, messageId, id, core, status) =>
        var _ := store.Acknowledge(sender, messageId, id, core, status);
      case DoPrune(now) => store.PruneExpiredDirect(now);
    }

    /** Resolve where a job goes now and, if that has changed, offer it again; other calls may
        come in between. */
    method RefreshAcceptedTarget(job: Accepted, beforeResolve: Moment, beforeAccept: Moment)
      returns (r: Result<Accepted>, ghost trial: Trial)
      requires store.Valid()
      modifies this`retryNotBefore, this`bindings, store
      ensures store.Valid()
      ensures
        var s2 := Meanwhile(old(At()), beforeResolve);
        var s3 := Meanwhile(s2, beforeAccept);
        var refreshed := Refresh(Destination, s2.bindings, s3.store, job);
        && At() == s3.(store := refreshed.store) && r == refreshed.outcome
        && trial.bindings == s2.bindings && trial.before == s3.store && trial.after == refreshed.store
    {
      Yield(beforeResolve);
      var destination := ReadDestination(job.data);
      var core := if destination.Ok? && destination.value.Some? then CoreFor(bindings, destination.value.value)
        else None;
      ghost var resolved := bindings;
      Yield(beforeAccept);
      ghost var before := store.View();
      r := Offer(job, destination, core, resolved);
      trial := Trial(resolved, before, store.View(), AttemptOf(job, r, None));
    }

    method ReadDestination(data: Bytes) returns (r: Result<Option<Bytes>>)
      ensures r == Destination(data)
    {
      var envelope := UnmarshalEnvelope(data);
      if envelope.Err? { return Err(envelope.error); }
      if envelope.value.kind != DIRECT { return Ok(None); }
      var direct := DecodeDirect(envelope.value.payload);
      if direct.Err? { return Err(direct.error); }
      return Ok(Some(direct.value.recipient));
    }

    method Offer(job: Accepted, destination: Result<Option<Bytes>>, core: Option<Bytes>, ghost b: Bindings)
      returns (r: Result<Accepted>)
      requires store.Valid() && destination == Destination(job.data)
      requires destination.Ok? && destination.value.Some? ==> core == CoreFor(b, destination.value.value)
      modifies store
      ensures store.Valid()
      ensures Refreshed(store.View(), r) == Refresh(Destination, b, old(store.View()), job)
    {
      if destination.Err? { return Err(destination.error); }
      if destination.value.None? { return Ok(job); }
      if core.None? { return Err(BindingNotFound); }
      if core.value == job.target { return Ok(job); }
      var outcome, charged := store.AcceptMessage(Reoffer(job, core.value));
      match outcome
      case Refused(e) => r := Err(e);
      case Admitted(record, _) => r := Ok(record);
    }

    /** One turn: skip the job if it has to wait, else refresh and route it. */
    method HandleJob(job: Accepted, t: Turn, soFar: Option<MsgError>)
      returns (firstErr: Option<MsgError>, ghost visit: Visit)
      requires store.Valid()
      modifies this`retryNotBefore, this`bindings, store
      ensures store.Valid() && Turned(Destination, old(At()), job, t, At(), visit)
      ensures firstErr == if soFar == None && visit.trial.Some? then AttemptError(visit.trial.value.attempt) else soFar
    {
      firstErr := soFar;
      Yield(t.beforeReady);
      ghost var waits := retryNotBefore;
      var ready := RetryReady(job, t.now);
      visit := Visit(job, waits, t.now, None);
      if ready {
        var refreshed; ghost var trial;
        refreshed, trial := RefreshAcceptedTarget(job, t.beforeResolve, t.beforeAccept);
        visit := visit.(trial := Some(trial.(attempt := AttemptOf(job, refreshed, t.error))));
        if refreshed.Ok? { Yield(t.routing); }
        if soFar == None { firstErr := if refreshed.Err? then Some(refreshed.error) else t.error; }
      }
    }

    /** A pass over the jobs listed as pending, with `world` for everything else that happens
        meanwhile. Every job is visited once, in order, and a failure stops nothing: the first
        error is reported at the end. */
    method RetryListed(jobs: seq<Accepted>, world: nat -> Turn, ghost listed: Store)
      returns (firstErr: Option<MsgError>, ghost scenes: seq<Scene>)
      requires store.Valid() && StoreOk(listed) && AllHeld(listed, jobs) && Since(listed, store.View())
      modifies this`retryNotBefore, this`bindings, this`visits, store
      ensures store.Valid() && |visits| == |jobs| && Turns(Destination, world, jobs, scenes, visits)
      ensures scenes[0] == old(At()) && scenes[|jobs|] == At()
      ensures PassOk(Destination, listed, jobs, |jobs|, store.View(), visits)
      ensures firstErr == FirstError(Attempts(visits))
    {
      visits := [];
      scenes := [At()];
      firstErr := None;
      var n := 0;
      while n < |jobs|
        invariant n == |visits| <= |jobs| && store.Valid() && Turns(Destination, world, jobs, scenes, visits)
        invariant scenes[0] == old(At()) && scenes[n] == At()
        invariant firstErr == FirstError(Attempts(visits))
      {
        ghost var visit;
        firstErr, visit := HandleJob(jobs[n], world(n), firstErr);
        TurnsNext(Destination, world, jobs, scenes, visits, At(), visit);
        AttemptsAppend(visits, visit);
        visits := visits + [visit];
        scenes := scenes + [At()];
        n := n + 1;
      }
      PassExact(Destination, world, jobs, scenes, visits, listed, |jobs|);
      assert visits[..|jobs|] == visits;
    }

    /** The whole pass: drop expired jobs, list the rest, and give each of these one turn. The
        turns are those `world` makes of the scene they begin in, one after the other. */
    method RetryPendingResolved(now: int, beforeList: Moment, world: nat -> Turn)
      returns (firstErr: Option<MsgError>, ghost listed: Store, ghost pending: seq<Accepted>, ghost scenes: seq<Scene>)
      requires store.Valid()
      modifies this`retryNotBefore, this`bindings, this`visits, store
      ensures store.Valid() && StoreOk(listed) && listed == Run(Prune(old(store.View()), now), beforeList.ops)
      ensures multiset(pending) == multiset(PendingSet(listed))
      ensures |visits| == |pending| && Visited(visits) == pending
      ensures Turns(Destination, world, pending, scenes, visits)
      ensures scenes[0] == Meanwhile(old(At()).(store := Prune(old(store.View()), now)), beforeList)
      ensures scenes[|pending|] == At()
      ensures PassOk(Destination, listed, pending, |pending|, store.View(), visits)
      ensures firstErr == FirstError(Attempts(visits))
    {
      store.PruneExpiredDirect(now);
      Yield(beforeList);
      listed := store.View();
      var jobs := store.Pending();
      pending := jobs;
      PendingHeld(listed, pending);
      SinceItself(listed);
      firstErr, scenes := RetryListed(jobs, world, listed);
      assert Visited(visits) == pending;
    }
  }

  function Visited(visits: seq<Visit>): (jobs: seq<Accepted>)
    ensures |jobs| == |visits|
  {
    seq(|visits|, i requires 0 <= i < |visits| => visits[i].job)
  }

  lemma AttemptsAppend(visits: seq<Visit>, v: Visit)
    ensures FirstError(Attempts(visits + [v])) ==
            if FirstError(Attempts(visits)) == None && v.trial.Some? then AttemptError(v.trial.value.attempt)
            else FirstError(Attempts(visits))
  {
    assert (visits + [v])[..|visits|] == visits;
    if v.trial.Some? {
      FirstErrorAppend(Attempts(visits), v.trial.value.attempt);
    } else {
      assert Attempts(visits) + [] == Attempts(visits);
    }
  }
}
