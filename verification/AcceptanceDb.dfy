/** The database form of the acceptance store: two buckets of encoded bytes. It is proved
    to give the same answers as the in-memory store on every sequence of calls. A bucket
    that was never created is an empty one, and a transaction is one step. */
module AcceptanceDb {
  import opened Framing
  import opened MessageCodec
  import opened AcceptanceStore

  datatype Db = Db(next: map<Bytes, Bytes>, accepted: map<Bytes, Bytes>)

  const EMPTY_DB := Db(map[], map[])

  /** A counter cell that is not eight bytes long counts as zero. */
  function Counter(cell: Bytes): u64 {
    if |cell| == 8 then Word(cell).value else 0
  }

  function ReadNext(db: Db, sender: Bytes): u64 {
    if sender in db.next then Counter(db.next[sender]) else 0
  }

  const UNREADABLE := Accepted([], 0, [], [], [], [], false, 0)

  function Record(encoded: Bytes): Accepted {
    match DecodeRecord(encoded)
    case Ok(m) => m
    case Err(_) => UNREADABLE
  }

  predicate Readable(encoded: Bytes) {
    DecodeRecord(encoded).Ok?
  }

  ghost predicate DbOk(db: Db) {
    forall k :: k in db.accepted ==> Readable(db.accepted[k])
  }

  function MapValues<V>(m: map<Bytes, Bytes>, f: Bytes -> V): map<Bytes, V> {
    map k | k in m :: f(m[k])
  }

  lemma MapValuesUpdate<V>(m: map<Bytes, Bytes>, f: Bytes -> V, k: Bytes, cell: Bytes)
    ensures MapValues(m[k := cell], f) == MapValues(m, f)[k := f(cell)]
  {
  }

  /** What the buckets mean: counters and records decoded cell by cell. */
  function Abs(db: Db): Store {
    Store(MapValues(db.next, Counter), MapValues(db.accepted, Record))
  }

  // -------------------------------------------------------------- the calls

  datatype DbAcceptResult = DbAcceptResult(db: Db, outcome: Outcome, charged: bool)

  /** The checks the database store makes before it looks at a bucket. */
  predicate WellFormed(q: Request) {
    ValidAccount(q.sender) && ValidMessageId(q.messageId) && q.target != [] && q.data != []
  }

  function Retarget(db: Db, q: Request, previous: Accepted): DbAcceptResult {
    if previous.digest != q.digest || previous.senderMsgId != q.senderMsgId then
      DbAcceptResult(db, Refused(InvalidSequence), false)
    else if previous.final || previous.target == q.target then
      DbAcceptResult(db, Admitted(previous, true), false)
    else
      var moved := previous.(target := q.target);
      match EncodeRecord(moved)
      case Err(e) => DbAcceptResult(db, Refused(e), false)
      case Ok(encoded) =>
        DbAcceptResult(db.(accepted := db.accepted[Key(q.sender, q.messageId) := encoded]),
                       Admitted(moved, true), false)
  }

  function Insert(db: Db, q: Request): DbAcceptResult {
    var expected := ReadNext(db, q.sender);
    if q.senderMsgId != expected then DbAcceptResult(db, Refused(InvalidSequence), false)
    else if q.charge == Charges(false) then DbAcceptResult(db, Refused(ChargeRefused), true)
    else
      match EncodeRecord(NewRecord(q))
      case Err(e) => DbAcceptResult(db, Refused(e), q.charge.Charges?)
      case Ok(encoded) =>
        if expected == LAST_ID then DbAcceptResult(db, Refused(InvalidSequence), q.charge.Charges?)
        else
          DbAcceptResult(Db(db.next[q.sender := PutWord(expected + 1)],
                            db.accepted[Key(q.sender, q.messageId) := encoded]),
                         Admitted(NewRecord(q), false), q.charge.Charges?)
  }

  function DbAccept(db: Db, q: Request): DbAcceptResult {
    var key := Key(q.sender, q.messageId);
    if !WellFormed(q) then DbAcceptResult(db, Refused(InvalidEnvelope), false)
    else if key in db.accepted && |db.accepted[key]| != 0 then
      match DecodeRecord(db.accepted[key])
      case Err(e) => DbAcceptResult(db, Refused(e), false)
      case Ok(previous) => Retarget(db, q, previous)
    else Insert(db, q)
  }

  datatype DbAckResult = DbAckResult(db: Db, error: Option<MsgError>)

  function DbMarkAck(db: Db, sender: Bytes, messageId: Bytes, senderMsgId: u64, sourceCore: Bytes,
                     status: byte): DbAckResult
  {
    var key := Key(sender, messageId);
    if !ValidAccount(sender) || !ValidMessageId(messageId) || sourceCore == [] || status == 0 then
      DbAckResult(db, Some(InvalidEnvelope))
    else if key !in db.accepted || |db.accepted[key]| == 0 then DbAckResult(db, Some(InvalidSequence))
    else
      match DecodeRecord(db.accepted[key])
      case Err(e) => DbAckResult(db, Some(e))
      case Ok(m) =>
        if m.senderMsgId != senderMsgId then DbAckResult(db, Some(InvalidSequence))
        else if m.target != sourceCore then DbAckResult(db, Some(InvalidEnvelope))
        else
          match EncodeRecord(m.(status := status, final := FinalStatus(status)))
          case Err(e) => DbAckResult(db, Some(e))
          case Ok(encoded) => DbAckResult(db.(accepted := db.accepted[key := encoded]), None)
  }

  /** The database refuses what it could not file, before it looks at a bucket, and answers with an
      error for a record it cannot read. Nothing is charged or changed. */
  lemma MalformedRefused(db: Db, q: Request)
    requires !ValidAccount(q.sender) || !ValidMessageId(q.messageId) || q.target == [] || q.data == []
             || (var key := Key(q.sender, q.messageId);
                 key in db.accepted && db.accepted[key] != [] && !Readable(db.accepted[key]))
    ensures DbAccept(db, q) == DbAcceptResult(db, Refused(InvalidEnvelope), false)
  {
  }

  lemma MalformedAckRefused(db: Db, sender: Bytes, messageId: Bytes, id: u64, core: Bytes, status: byte)
    requires !ValidAccount(sender) || !ValidMessageId(messageId) || core == [] || status == 0
    ensures DbMarkAck(db, sender, messageId, id, core, status) == DbAckResult(db, Some(InvalidEnvelope))
  {
  }

  /** A counter is eight big-endian bytes; anything else, and no cell at all, counts as zero. */
  lemma CounterExact(db: Db, sender: Bytes)
    ensures sender in db.next && |db.next[sender]| == 8 ==> ReadNext(db, sender) == FromBigEndian(db.next[sender])
    ensures sender !in db.next || |db.next[sender]| != 8 ==> ReadNext(db, sender) == 0
  {
    if sender in db.next && |db.next[sender]| == 8 { assert db.next[sender][..8] == db.next[sender]; }
  }

  // ------------------------------------------------------------- refinement

  /** Requests whose record the database can read back. */
  predicate Storable(q: Request) {
    && WellFormed(q)
    && |q.digest| == DIGEST_SIZE
    && |q.target| <= MAX_RECORD_TARGET
    && |q.data| <= MAX_RECORD_DATA
  }

  /** The one call on which the two stores answer differently: the account's sequence is
      used up and a charge callback is present. The database consults it first. */
  predicate ChargesExhausted(s: Store, q: Request) {
    && Key(q.sender, q.messageId) !in s.accepted
    && q.senderMsgId == NextId(s, q.sender) == LAST_ID
    && q.charge.Charges?
  }

  /** Writing a record the reader's limits allow replaces exactly that job. */
  lemma PutRecord(db: Db, k: Bytes, m: Accepted)
    requires DbOk(db) && RecordWritable(m) && |m.digest| == DIGEST_SIZE
    requires |m.target| <= MAX_RECORD_TARGET && |m.data| <= MAX_RECORD_DATA
    ensures var after := db.(accepted := db.accepted[k := RecordBytes(m)]);
            DbOk(after) && Abs(after) == Abs(db).(accepted := Abs(db).accepted[k := m])
  {
    RecordRoundTrip(m);
    MapValuesUpdate(db.accepted, Record, k, RecordBytes(m));
  }

  lemma PutNext(db: Db, sender: Bytes, id: u64)
    ensures Abs(db.(next := db.next[sender := PutWord(id)])) == Abs(db).(next := Abs(db).next[sender := id])
  {
    WordRoundTrip(id, []);
    assert PutWord(id) + [] == PutWord(id);
    MapValuesUpdate(db.next, Counter, sender, PutWord(id));
  }

  /** A readable record is within the limits, so it can be written again. */
  lemma ReadableRecord(encoded: Bytes)
    requires Readable(encoded)
    ensures |encoded| != 0
    ensures var m := Record(encoded);
            && RecordWritable(m) && |m.digest| == DIGEST_SIZE
            && |m.target| <= MAX_RECORD_TARGET && |m.data| <= MAX_RECORD_DATA
  {
    RecordLocal(encoded, []);
  }

  lemma RetargetRefines(db: Db, q: Request)
    requires DbOk(db) && Storable(q) && Key(q.sender, q.messageId) in db.accepted
    ensures var r := Retarget(db, q, Record(db.accepted[Key(q.sender, q.messageId)]));
            var m := Accept(Abs(db), q);
            DbOk(r.db) && Abs(r.db) == m.store && SameAnswer(r, m)
  {
    var key := Key(q.sender, q.messageId);
    assert Readable(db.accepted[key]);
    ReadableRecord(db.accepted[key]);
    PutRecord(db, key, Record(db.accepted[key]).(target := q.target));
  }

  /** The checks both stores make before they write anything. */
  predicate Insertable(s: Store, q: Request) {
    q.senderMsgId == NextId(s, q.sender) < LAST_ID && q.charge != Charges(false)
  }

  ghost predicate SameAnswer(r: DbAcceptResult, m: AcceptResult) {
    r.outcome == m.outcome && r.charged == m.charged
  }

  lemma RefusalRefines(db: Db, q: Request)
    requires Storable(q) && Key(q.sender, q.messageId) !in db.accepted && !Insertable(Abs(db), q)
    ensures var r := Insert(db, q);
            var m := Accept(Abs(db), q);
            r.db == db && m.store == Abs(db) && (SameAnswer(r, m) <==> !ChargesExhausted(Abs(db), q))
  {
    assert ReadNext(db, q.sender) == NextId(Abs(db), q.sender);
    assert EncodeRecord(NewRecord(q)).Ok?;
  }

  lemma PutBoth(db: Db, k: Bytes, m: Accepted, sender: Bytes, id: u64)
    requires DbOk(db) && RecordWritable(m) && |m.digest| == DIGEST_SIZE
    requires |m.target| <= MAX_RECORD_TARGET && |m.data| <= MAX_RECORD_DATA
    ensures var after := Db(db.next[sender := PutWord(id)], db.accepted[k := RecordBytes(m)]);
            DbOk(after) && Abs(after) == Store(Abs(db).next[sender := id], Abs(db).accepted[k := m])
  {
    PutRecord(db, k, m);
    PutNext(db, sender, id);
  }

  /** What the database writes for a message it accepts. */
  lemma InsertWrites(db: Db, q: Request)
    requires Storable(q) && Insertable(Abs(db), q)
    ensures Insert(db, q) ==
            DbAcceptResult(Db(db.next[q.sender := PutWord(q.senderMsgId + 1)],
                              db.accepted[Key(q.sender, q.messageId) := RecordBytes(NewRecord(q))]),
                           Admitted(NewRecord(q), false), q.charge.Charges?)
  {
    assert ReadNext(db, q.sender) == NextId(Abs(db), q.sender);
  }

  /** What the memory writes for it. */
  lemma AcceptWrites(s: Store, q: Request)
    requires Storable(q) && Key(q.sender, q.messageId) !in s.accepted && Insertable(s, q)
    ensures var r := Accept(s, q);
            && r.store == Store(s.next[q.sender := q.senderMsgId + 1],
                                s.accepted[Key(q.sender, q.messageId) := NewRecord(q)])
            && r.outcome == Admitted(NewRecord(q), false) && r.charged == q.charge.Charges?
  {
  }

  lemma InsertRefines(db: Db, q: Request)
    requires DbOk(db) && Storable(q) && Key(q.sender, q.messageId) !in db.accepted && Insertable(Abs(db), q)
    ensures var r := Insert(db, q);
            var m := Accept(Abs(db), q);
            DbOk(r.db) && Abs(r.db) == m.store && SameAnswer(r, m)
  {
    InsertWrites(db, q);
    AcceptWrites(Abs(db), q);
    PutBoth(db, Key(q.sender, q.messageId), NewRecord(q), q.sender, q.senderMsgId + 1);
  }

  /** Accepting through the buckets is accepting in memory, answer for answer, except
      exactly when a charge callback meets an exhausted sequence. */
  lemma AcceptRefines(db: Db, q: Request)
    requires DbOk(db) && Storable(q)
    ensures var r := DbAccept(db, q);
            var m := Accept(Abs(db), q);
            && DbOk(r.db) && Abs(r.db) == m.store
            && (SameAnswer(r, m) <==> !ChargesExhausted(Abs(db), q))
  {
    var key := Key(q.sender, q.messageId);
    if key in db.accepted {
      assert Readable(db.accepted[key]);
      ReadableRecord(db.accepted[key]);
      RetargetRefines(db, q);
    } else if Insertable(Abs(db), q) {
      InsertRefines(db, q);
    } else {
      RefusalRefines(db, q);
    }
  }

  lemma MarkAckRefines(db: Db, sender: Bytes, messageId: Bytes, id: u64, core: Bytes, status: byte)
    requires DbOk(db) && ValidAccount(sender) && ValidMessageId(messageId) && core != [] && status != 0
    ensures var r := DbMarkAck(db, sender, messageId, id, core, status);
            var m := MarkAck(Abs(db), sender, messageId, id, core, status);
            DbOk(r.db) && Abs(r.db) == m.store && r.error == m.error
  {
    var key := Key(sender, messageId);
    if key in db.accepted {
      assert Readable(db.accepted[key]);
      ReadableRecord(db.accepted[key]);
      PutRecord(db, key, Record(db.accepted[key]).(status := status, final := FinalStatus(status)));
    }
  }

  function DbPrune(db: Db, now: int): DbAckResult {
    if exists k :: k in db.accepted && !Readable(db.accepted[k]) then DbAckResult(db, Some(InvalidEnvelope))
    else DbAckResult(db.(accepted := Filter(db.accepted, Record, job => !Expired(job, now))), None)
  }

  /** The cells whose decoded job is to be kept. */
  function Filter(cells: map<Bytes, Bytes>, decode: Bytes -> Accepted, keep: Accepted -> bool): map<Bytes, Bytes> {
    map k | k in cells && keep(decode(cells[k])) :: cells[k]
  }

  function FilterJobs(jobs: map<Bytes, Accepted>, keep: Accepted -> bool): map<Bytes, Accepted> {
    map k | k in jobs && keep(jobs[k]) :: jobs[k]
  }

  lemma FilterDecoded(cells: map<Bytes, Bytes>, decode: Bytes -> Accepted, keep: Accepted -> bool)
    ensures MapValues(Filter(cells, decode, keep), decode) == FilterJobs(MapValues(cells, decode), keep)
    ensures Filter(cells, decode, keep).Keys <= cells.Keys
    ensures forall k :: k in Filter(cells, decode, keep) ==> Filter(cells, decode, keep)[k] == cells[k]
  {
  }

  lemma PruneRefines(db: Db, now: int)
    requires DbOk(db)
    ensures var r := DbPrune(db, now);
            r.error == None && DbOk(r.db) && Abs(r.db) == Prune(Abs(db), now)
  {
    var keep := (job: Accepted) => !Expired(job, now);
    FilterDecoded(db.accepted, Record, keep);
    assert FilterJobs(Abs(db).accepted, keep) == Prune(Abs(db), now).accepted;
    assert DbPrune(db, now) == DbAckResult(db.(accepted := Filter(db.accepted, Record, keep)), None);
  }

  /** One unreadable record keeps anything from being pruned. */
  lemma UnreadableStopsPrune(db: Db, now: int, k: Bytes)
    requires k in db.accepted && !Readable(db.accepted[k])
    ensures DbPrune(db, now) == DbAckResult(db, Some(InvalidEnvelope))
  {
  }

  // ---------------------------------------------------------- pending order

  /** Go's string order: byte by byte, a proper prefix first. */
  predicate BytesLess(a: Bytes, b: Bytes) {
    b != [] && (a == [] || a[0] < b[0] || (a[0] == b[0] && BytesLess(a[1..], b[1..])))
  }

  predicate JobLess(a: Accepted, b: Accepted) {
    if a.sender != b.sender then BytesLess(a.sender, b.sender) else a.senderMsgId < b.senderMsgId
  }

  ghost predicate Sorted(jobs: seq<Accepted>) {
    forall i, j :: 0 <= i < j < |jobs| ==> !JobLess(jobs[j], jobs[i])
  }

  lemma {:induction false} BytesLessTotal(a: Bytes, b: Bytes)
    ensures !(BytesLess(a, b) && BytesLess(b, a))
    ensures a != b ==> BytesLess(a, b) || BytesLess(b, a)
    ensures !BytesLess(a, a)
    decreases |a|
  {
    if a != [] && b != [] {
      assert a == [a[0]] + a[1..] && b == [b[0]] + b[1..];
      BytesLessTotal(a[1..], b[1..]);
    }
    if a != [] { BytesLessTotal(a[1..], a[1..]); }
  }

  lemma {:induction false} BytesLessTransitive(a: Bytes, b: Bytes, c: Bytes)
    requires BytesLess(a, b) && BytesLess(b, c)
    ensures BytesLess(a, c)
    decreases |a|
  {
    if a != [] && a[0] == b[0] == c[0] {
      BytesLessTransitive(a[1..], b[1..], c[1..]);
    }
  }

  lemma JobOrder(a: Accepted, b: Accepted, c: Accepted)
    ensures !JobLess(a, b) && !JobLess(b, a) ==> SameSlot(a, b)
    ensures JobLess(a, b) ==> !JobLess(b, a)
    ensures !JobLess(b, a) && !JobLess(c, b) ==> !JobLess(c, a)
  {
    BytesLessTotal(a.sender, b.sender);
    BytesLessTotal(b.sender, c.sender);
    BytesLessTotal(a.sender, c.sender);
    if BytesLess(a.sender, b.sender) && BytesLess(b.sender, c.sender) {
      BytesLessTransitive(a.sender, b.sender, c.sender);
    }
  }

  /** What the byte order is: at the first byte that differs the smaller one decides, and a proper
      prefix comes first. */
  lemma {:induction false} BytesLessIff(a: Bytes, b: Bytes)
    ensures BytesLess(a, b) <==> exists k :: FirstDifference(a, b, k)
    decreases |a|
  {
    if a == [] {
      if b != [] { assert FirstDifference(a, b, 0); }
    } else if b != [] && a[0] < b[0] {
      assert FirstDifference(a, b, 0);
    } else if b != [] && a[0] == b[0] {
      BytesLessIff(a[1..], b[1..]);
      if BytesLess(a[1..], b[1..]) {
        var k :| FirstDifference(a[1..], b[1..], k);
        DifferenceNext(a, b, k);
      }
      if exists k :: FirstDifference(a, b, k) {
        var k: nat :| FirstDifference(a, b, k);
        assert !FirstDifference(a, b, 0);
        DifferenceNext(a, b, k - 1);
      }
    }
  }

  /** The strings agree up to `k`, where `a` ends or has the smaller byte. */
  ghost predicate FirstDifference(a: Bytes, b: Bytes, k: nat) {
    k <= |a| && k < |b| && (forall i :: 0 <= i < k ==> a[i] == b[i]) && (k == |a| || a[k] < b[k])
  }

  lemma DifferenceNext(a: Bytes, b: Bytes, k: nat)
    requires a != [] && b != [] && a[0] == b[0]
    ensures FirstDifference(a, b, k + 1) <==> FirstDifference(a[1..], b[1..], k)
  {
    if FirstDifference(a[1..], b[1..], k) {
      forall i | 0 <= i < k + 1 ensures a[i] == b[i] {
        if i > 0 { assert a[i] == a[1..][i - 1] && b[i] == b[1..][i - 1]; }
      }
    }
    if FirstDifference(a, b, k + 1) {
      forall i | 0 <= i < k ensures a[1..][i] == b[1..][i] { assert a[i + 1] == b[i + 1]; }
    }
  }

  /** In a listing the jobs of one sender come by number, and senders in byte order. */
  lemma ListingOrder(jobs: seq<Accepted>, i: nat, j: nat)
    requires Sorted(jobs) && i < j < |jobs|
    ensures jobs[i].sender == jobs[j].sender ==> jobs[i].senderMsgId <= jobs[j].senderMsgId
    ensures jobs[i].sender != jobs[j].sender ==> exists k :: FirstDifference(jobs[i].sender, jobs[j].sender, k)
  {
    BytesLessTotal(jobs[i].sender, jobs[j].sender);
    BytesLessIff(jobs[i].sender, jobs[j].sender);
  }

  function InsertJob(x: Accepted, jobs: seq<Accepted>): seq<Accepted> {
    if jobs == [] then [x]
    else if JobLess(jobs[0], x) then [jobs[0]] + InsertJob(x, jobs[1..])
    else [x] + jobs
  }

  function SortJobs(jobs: seq<Accepted>): seq<Accepted> {
    if jobs == [] then [] else InsertJob(jobs[0], SortJobs(jobs[1..]))
  }

  lemma {:induction false} InsertJobMultiset(x: Accepted, jobs: seq<Accepted>)
    ensures multiset(InsertJob(x, jobs)) == multiset{x} + multiset(jobs)
  {
    if jobs != [] {
      assert jobs == [jobs[0]] + jobs[1..];
      if JobLess(jobs[0], x) { InsertJobMultiset(x, jobs[1..]); }
    }
  }

  lemma {:induction false} InsertJobSorted(x: Accepted, jobs: seq<Accepted>)
    requires Sorted(jobs)
    ensures Sorted(InsertJob(x, jobs))
  {
    if jobs != [] {
      var rest := jobs[1..];
      if JobLess(jobs[0], x) {
        InsertJobSorted(x, rest);
        InsertJobMultiset(x, rest);
        var tail := InsertJob(x, rest);
        forall j | 0 <= j < |tail| ensures !JobLess(tail[j], jobs[0]) {
          assert tail[j] in multiset(tail);
          if tail[j] == x {
            JobOrder(jobs[0], x, x);
          } else {
            assert tail[j] in rest;
          }
        }
      } else {
        forall j | 0 <= j < |jobs| ensures !JobLess(jobs[j], x) {
          JobOrder(x, jobs[0], jobs[j]);
          JobOrder(jobs[0], jobs[0], jobs[0]);
        }
      }
    }
  }

  lemma {:induction false} SortJobsSorts(jobs: seq<Accepted>)
    ensures Sorted(SortJobs(jobs)) && multiset(SortJobs(jobs)) == multiset(jobs)
  {
    if jobs != [] {
      assert jobs == [jobs[0]] + jobs[1..];
      SortJobsSorts(jobs[1..]);
      InsertJobSorted(jobs[0], SortJobs(jobs[1..]));
      InsertJobMultiset(jobs[0], SortJobs(jobs[1..]));
    }
  }

  ghost predicate OnePerSlot(jobs: seq<Accepted>) {
    forall i, j :: 0 <= i < |jobs| && 0 <= j < |jobs| && SameSlot(jobs[i], jobs[j]) ==> jobs[i] == jobs[j]
  }

  lemma SortedHeads(s: seq<Accepted>, t: seq<Accepted>)
    requires Sorted(s) && Sorted(t) && s != [] && t != [] && t[0] in s && s[0] in t && OnePerSlot(s)
    ensures s[0] == t[0]
  {
    var i :| 0 <= i < |s| && s[i] == t[0];
    var j :| 0 <= j < |t| && t[j] == s[0];
    JobOrder(s[0], s[0], s[0]);
    JobOrder(t[0], t[0], t[0]);
    assert !JobLess(t[0], s[0]) && !JobLess(s[0], t[0]);
    JobOrder(s[0], t[0], t[0]);
  }

  lemma BagTail(s: seq<Accepted>)
    requires s != []
    ensures multiset(s[1..]) == multiset(s) - multiset{s[0]}
  {
    assert s == [s[0]] + s[1..];
  }

  lemma BagMember(s: seq<Accepted>, t: seq<Accepted>)
    requires multiset(s) == multiset(t) && s != []
    ensures t != [] && s[0] in t
  {
    assert s[0] in multiset(t);
  }

  /** Sender and id identify a job, so a sorted list of them is unique: any sorting algorithm,
      stable or not, returns this one. */
  lemma {:induction false} SortedUnique(s: seq<Accepted>, t: seq<Accepted>)
    requires Sorted(s) && Sorted(t) && multiset(s) == multiset(t) && OnePerSlot(s)
    ensures s == t
  {
    if s == [] {
      if t != [] { BagMember(t, s); }
    } else {
      BagMember(s, t);
      BagMember(t, s);
      SortedHeads(s, t);
      BagTail(s);
      BagTail(t);
      SortedUnique(s[1..], t[1..]);
      assert s == [s[0]] + s[1..] && t == [t[0]] + t[1..];
    }
  }

  // ----------------------------------------------------------------- listings

  ghost function UnfinishedAt(accepted: map<Bytes, Accepted>, k: Bytes): multiset<Accepted> {
    if k in accepted && !accepted[k].final then multiset{accepted[k]} else multiset{}
  }

  /** The unfinished jobs under these keys, once for each key. */
  ghost function UnfinishedUnder(accepted: map<Bytes, Accepted>, keys: set<Bytes>): multiset<Accepted> {
    if keys == {} then multiset{}
    else
      var k :| k in keys;
      UnfinishedAt(accepted, k) + UnfinishedUnder(accepted, keys - {k})
  }

  /** It does not matter in which order the keys are visited. */
  lemma {:induction false} UnfinishedWithout(accepted: map<Bytes, Accepted>, keys: set<Bytes>, k: Bytes)
    requires k in keys
    ensures UnfinishedUnder(accepted, keys) == UnfinishedAt(accepted, k) + UnfinishedUnder(accepted, keys - {k})
    decreases |keys|
  {
    var first :| first in keys &&
      UnfinishedUnder(accepted, keys) == UnfinishedAt(accepted, first) + UnfinishedUnder(accepted, keys - {first});
    if first != k {
      UnfinishedWithout(accepted, keys - {first}, k);
      UnfinishedWithout(accepted, keys - {k}, first);
      assert keys - {first} - {k} == keys - {k} - {first};
    }
  }

  lemma VisitOne(accepted: map<Bytes, Accepted>, keys: set<Bytes>, k: Bytes, jobs: seq<Accepted>,
                 all: multiset<Accepted>)
    requires multiset(jobs) + UnfinishedUnder(accepted, keys) == all && k in keys && k in accepted
    ensures multiset(if accepted[k].final then jobs else jobs + [accepted[k]]) +
      UnfinishedUnder(accepted, keys - {k}) == all
  {
    UnfinishedWithout(accepted, keys, k);
  }

  /** A listing has the unfinished jobs under all keys, in some order. */
  ghost predicate Lists(s: Store, jobs: seq<Accepted>) {
    multiset(jobs) == UnfinishedUnder(s.accepted, s.accepted.Keys)
  }

  /** The keys that hold this unfinished job. */
  function Holding(accepted: map<Bytes, Accepted>, keys: set<Bytes>, job: Accepted): set<Bytes> {
    set k | k in keys && k in accepted && accepted[k] == job && !job.final
  }

  lemma HoldingWithout(accepted: map<Bytes, Accepted>, keys: set<Bytes>, k: Bytes, job: Accepted)
    requires k in keys
    ensures |Holding(accepted, keys, job)| == UnfinishedAt(accepted, k)[job] + |Holding(accepted, keys - {k}, job)|
  {
    if k in accepted && accepted[k] == job && !job.final {
      assert Holding(accepted, keys, job) == Holding(accepted, keys - {k}, job) + {k};
    } else {
      assert Holding(accepted, keys, job) == Holding(accepted, keys - {k}, job);
    }
  }

  /** So a listing has an unfinished job as often as there are keys that hold it. */
  lemma {:induction false} UnfinishedCount(accepted: map<Bytes, Accepted>, keys: set<Bytes>, job: Accepted)
    ensures UnfinishedUnder(accepted, keys)[job] == |Holding(accepted, keys, job)|
    decreases |keys|
  {
    if keys == {} {
      assert Holding(accepted, keys, job) == {};
    } else {
      var k :| k in keys;
      UnfinishedWithout(accepted, keys, k);
      UnfinishedCount(accepted, keys - {k}, job);
      HoldingWithout(accepted, keys, k, job);
    }
  }

  /** In a well-formed store a listing has each unfinished job once, one per account number. */
  lemma ListedOnce(s: Store, jobs: seq<Accepted>)
    requires StoreOk(s) && Lists(s, jobs)
    ensures multiset(jobs) == multiset(PendingSet(s)) && OnePerSlot(jobs)
  {
    forall job ensures multiset(jobs)[job] == multiset(PendingSet(s))[job] {
      UnfinishedCount(s.accepted, s.accepted.Keys, job);
      HeldOnce(s, job);
    }
    forall i, j | 0 <= i < |jobs| && 0 <= j < |jobs| && SameSlot(jobs[i], jobs[j]) ensures jobs[i] == jobs[j] {
      var k := Holder(s, jobs, i);
      var l := Holder(s, jobs, j);
    }
  }

  lemma Holder(s: Store, jobs: seq<Accepted>, i: nat) returns (k: Bytes)
    requires Lists(s, jobs) && i < |jobs|
    ensures k in s.accepted && s.accepted[k] == jobs[i]
  {
    assert jobs[i] in multiset(jobs);
    UnfinishedCount(s.accepted, s.accepted.Keys, jobs[i]);
    assert Holding(s.accepted, s.accepted.Keys, jobs[i]) != {};
    k :| k in Holding(s.accepted, s.accepted.Keys, jobs[i]);
  }

  lemma HeldOnce(s: Store, job: Accepted)
    requires StoreOk(s)
    ensures |Holding(s.accepted, s.accepted.Keys, job)| == multiset(PendingSet(s))[job]
  {
    StoredJobsDistinct(s);
    var keys := Holding(s.accepted, s.accepted.Keys, job);
    if job in PendingSet(s) {
      var k :| k in s.accepted && !s.accepted[k].final && s.accepted[k] == job;
      assert keys == {k};
    } else {
      assert keys == {};
    }
  }

  // ------------------------------------------------------------------- runs

  datatype Call =
    | CallAccept(request: Request)
    | CallAck(sender: Bytes, messageId: Bytes, senderMsgId: u64, sourceCore: Bytes, status: byte)
    | CallPrune(now: int)
    | CallPending

  datatype Reply =
    | Answered(outcome: Outcome, charged: bool)
    | Completed(error: Option<MsgError>)
    | Listed(jobs: seq<Accepted>)

  function MemStep(s: Store, c: Call): Store {
    match c
    case CallAccept(q) => Accept(s, q).store
    case CallAck(a, m, id, core, status) => MarkAck(s, a, m, id, core, status).store
    case CallPrune(now) => Prune(s, now)
    case CallPending => s
  }

  /** What the memory may reply. It goes through its map in any order, so the unfinished jobs
      may come in any order. */
  ghost predicate MemReply(s: Store, c: Call, reply: Reply) {
    match c
    case CallAccept(q) => var r := Accept(s, q); reply == Answered(r.outcome, r.charged)
    case CallAck(a, m, id, core, status) => reply == Completed(MarkAck(s, a, m, id, core, status).error)
    case CallPrune(now) => reply == Completed(None)
    case CallPending => reply.Listed? && Lists(s, reply.jobs)
  }

  function DbStep(db: Db, c: Call): Db {
    match c
    case CallAccept(q) => DbAccept(db, q).db
    case CallAck(a, m, id, core, status) => DbMarkAck(db, a, m, id, core, status).db
    case CallPrune(now) => DbPrune(db, now).db
    case CallPending => db
  }

  /** What the database may reply; the listing is sorted, or an error if a record is unreadable. */
  ghost predicate DbReply(db: Db, c: Call, reply: Reply) {
    match c
    case CallAccept(q) => var r := DbAccept(db, q); reply == Answered(r.outcome, r.charged)
    case CallAck(a, m, id, core, status) => reply == Completed(DbMarkAck(db, a, m, id, core, status).error)
    case CallPrune(now) => reply == Completed(DbPrune(db, now).error)
    case CallPending =>
      if DbOk(db) then reply.Listed? && Sorted(reply.jobs) && Lists(Abs(db), reply.jobs)
      else reply == Completed(Some(InvalidEnvelope))
  }

  predicate CallOk(s: Store, c: Call) {
    match c
    case CallAccept(q) => Storable(q) && !ChargesExhausted(s, q)
    case CallAck(a, m, _, core, status) => ValidAccount(a) && ValidMessageId(m) && core != [] && status != 0
    case CallPrune(_) => true
    case CallPending => true
  }

  predicate CallsOk(s: Store, calls: seq<Call>)
    decreases calls
  {
    calls == [] || (CallOk(s, calls[0]) && CallsOk(MemStep(s, calls[0]), calls[1..]))
  }

  function MemRun(s: Store, calls: seq<Call>): Store
    decreases calls
  {
    if calls == [] then s else MemRun(MemStep(s, calls[0]), calls[1..])
  }

  ghost predicate MemReplies(s: Store, calls: seq<Call>, replies: seq<Reply>)
    decreases calls
  {
    if calls == [] then replies == []
    else
      && replies != [] && MemReply(s, calls[0], replies[0])
      && MemReplies(MemStep(s, calls[0]), calls[1..], replies[1..])
  }

  function DbRun(db: Db, calls: seq<Call>): Db
    decreases calls
  {
    if calls == [] then db else DbRun(DbStep(db, calls[0]), calls[1..])
  }

  ghost predicate DbReplies(db: Db, calls: seq<Call>, replies: seq<Reply>)
    decreases calls
  {
    if calls == [] then replies == []
    else
      && replies != [] && DbReply(db, calls[0], replies[0])
      && DbReplies(DbStep(db, calls[0]), calls[1..], replies[1..])
  }

  /** The same reply, except that the database lists in order what the memory lists in any. */
  ghost predicate SameReply(r: Reply, m: Reply) {
    r == m || (r.Listed? && m.Listed? && Sorted(r.jobs) && multiset(r.jobs) == multiset(m.jobs))
  }

  lemma StepRefines(db: Db, c: Call)
    requires DbOk(db) && CallOk(Abs(db), c)
    ensures DbOk(DbStep(db, c)) && Abs(DbStep(db, c)) == MemStep(Abs(db), c)
  {
    match c
    case CallAccept(q) => AcceptRefines(db, q);
    case CallAck(a, m, id, core, status) => MarkAckRefines(db, a, m, id, core, status);
    case CallPrune(now) => PruneRefines(db, now);
    case CallPending =>
  }

  lemma ReplyRefines(db: Db, c: Call, reply: Reply)
    requires DbOk(db) && CallOk(Abs(db), c) && DbReply(db, c, reply)
    ensures MemReply(Abs(db), c, reply)
    ensures forall other :: MemReply(Abs(db), c, other) ==> SameReply(reply, other)
  {
    match c
    case CallAccept(q) => AcceptRefines(db, q);
    case CallAck(a, m, id, core, status) => MarkAckRefines(db, a, m, id, core, status);
    case CallPrune(now) => PruneRefines(db, now);
    case CallPending =>
      forall other | MemReply(Abs(db), c, other) ensures SameReply(reply, other) {
        assert multiset(reply.jobs) == multiset(other.jobs);
      }
  }

  /** On every sequence of calls with storable inputs the buckets decode to the state the
      memory is in. */
  lemma {:induction false} StatesRefine(db: Db, calls: seq<Call>)
    requires DbOk(db) && CallsOk(Abs(db), calls)
    ensures DbOk(DbRun(db, calls)) && Abs(DbRun(db, calls)) == MemRun(Abs(db), calls)
    decreases calls
  {
    if calls != [] {
      StepRefines(db, calls[0]);
      StatesRefine(DbStep(db, calls[0]), calls[1..]);
    }
  }

  /** And the database replies as the memory: every sequence of replies it gives is one the
      memory could have given. */
  lemma {:induction false} RunRefines(db: Db, calls: seq<Call>, replies: seq<Reply>)
    requires DbOk(db) && CallsOk(Abs(db), calls) && DbReplies(db, calls, replies)
    ensures DbOk(DbRun(db, calls)) && Abs(DbRun(db, calls)) == MemRun(Abs(db), calls)
    ensures MemReplies(Abs(db), calls, replies)
    decreases calls
  {
    StatesRefine(db, calls);
    if calls != [] {
      StepRefines(db, calls[0]);
      ReplyRefines(db, calls[0], replies[0]);
      RunRefines(DbStep(db, calls[0]), calls[1..], replies[1..]);
    }
  }

  lemma {:induction false} RepliesLength(s: Store, calls: seq<Call>, replies: seq<Reply>)
    requires MemReplies(s, calls, replies)
    ensures |replies| == |calls|
    decreases calls
  {
    if calls != [] { RepliesLength(MemStep(s, calls[0]), calls[1..], replies[1..]); }
  }

  /** Whatever else the memory could have replied differs in the order of listed jobs alone. */
  lemma {:induction false} RepliesAgree(db: Db, calls: seq<Call>, replies: seq<Reply>, others: seq<Reply>, i: nat)
    requires DbOk(db) && CallsOk(Abs(db), calls)
    requires DbReplies(db, calls, replies) && MemReplies(Abs(db), calls, others) && i < |calls|
    ensures |replies| == |others| == |calls| && SameReply(replies[i], others[i])
    decreases calls
  {
    RunRefines(db, calls, replies);
    RepliesLength(Abs(db), calls, replies);
    RepliesLength(Abs(db), calls, others);
    StepRefines(db, calls[0]);
    ReplyRefines(db, calls[0], replies[0]);
    if i > 0 {
      RepliesAgree(DbStep(db, calls[0]), calls[1..], replies[1..], others[1..], i - 1);
    }
  }

  lemma {:induction false} MemRunKeepsStoreOk(s: Store, calls: seq<Call>)
    requires StoreOk(s)
    ensures StoreOk(MemRun(s, calls))
    decreases calls
  {
    if calls != [] {
      match calls[0] {
        case CallAccept(q) => AcceptKeepsStoreOk(s, q);
        case CallAck(a, m, id, core, status) => MarkAckKeepsStoreOk(s, a, m, id, core, status);
        case CallPrune(now) => PruneKeepsStoreOk(s, now);
        case CallPending =>
      }
      MemRunKeepsStoreOk(MemStep(s, calls[0]), calls[1..]);
    }
  }

  /** Whatever was called since the buckets were empty, there is one listing only: every
      unfinished job once, in order, whichever way the bucket is read and the list sorted. */
  lemma ListingDetermined(calls: seq<Call>, jobs: seq<Accepted>, others: seq<Accepted>)
    requires CallsOk(EMPTY, calls)
    requires var db := DbRun(EMPTY_DB, calls);
             DbReply(db, CallPending, Listed(jobs)) && DbReply(db, CallPending, Listed(others))
    ensures jobs == others
    ensures multiset(jobs) == multiset(PendingSet(Abs(DbRun(EMPTY_DB, calls))))
  {
    assert Abs(EMPTY_DB) == EMPTY;
    StatesRefine(EMPTY_DB, calls);
    MemRunKeepsStoreOk(EMPTY, calls);
    ListedOnce(Abs(DbRun(EMPTY_DB, calls)), jobs);
    ListedOnce(Abs(DbRun(EMPTY_DB, calls)), others);
    SortedUnique(jobs, others);
  }

  // --------------------------------------------------------- the store itself

  class DatabaseStore {
    var nextBucket: map<Bytes, Bytes>
    var acceptedBucket: map<Bytes, Bytes>

    ghost function View(): Db
      reads this
    {
      Db(nextBucket, acceptedBucket)
    }

    constructor (db: Db)
      ensures View() == db
    {
      nextBucket, acceptedBucket := db.next, db.accepted;
    }

    method ReadNextSenderMsgId(sender: Bytes) returns (id: u64)
      ensures id == ReadNext(View(), sender)
    {
      if sender !in nextBucket || |nextBucket[sender]| != 8 { return 0; }
      var reader := new Reader(nextBucket[sender]);
      var word := reader.ReadWord();
      id := word.value;
    }

    method NextSenderMsgId(sender: Bytes) returns (id: u64)
      ensures id == if ValidAccount(sender) then ReadNext(View(), sender) else 0
    {
      if !ValidAccount(sender) { return 0; }
      id := ReadNextSenderMsgId(sender);
    }

    method AcceptMessage(q: Request) returns (outcome: Outcome, charged: bool)
      modifies this
      ensures DbAcceptResult(View(), outcome, charged) == DbAccept(old(View()), q)
    {
      charged := false;
      if !ValidAccount(q.sender) || !ValidMessageId(q.messageId) || q.target == [] || |q.data| == 0 {
        return Refused(InvalidEnvelope), false;
      }
      var idKey := Key(q.sender, q.messageId);
      if idKey in acceptedBucket && |acceptedBucket[idKey]| != 0 {
        var decoded := UnmarshalRecord(acceptedBucket[idKey]);
        if decoded.Err? { return Refused(decoded.error), false; }
        outcome := RetargetStored(q, idKey, decoded.value);
        return outcome, false;
      }
      outcome, charged := InsertFresh(q, idKey);
    }

    method RetargetStored(q: Request, idKey: Bytes, stored: Accepted) returns (outcome: Outcome)
      requires idKey == Key(q.sender, q.messageId)
      modifies this
      ensures DbAcceptResult(View(), outcome, false) == Retarget(old(View()), q, stored)
    {
      var previous := stored;
      if previous.digest != q.digest || previous.senderMsgId != q.senderMsgId { return Refused(InvalidSequence); }
      if !previous.final && previous.target != q.target {
        previous := previous.(target := q.target);
        var encoded := MarshalRecord(previous);
        if encoded.Err? { return Refused(encoded.error); }
        acceptedBucket := acceptedBucket[idKey := encoded.value];
      }
      outcome := Admitted(previous, true);
    }

    method InsertFresh(q: Request, idKey: Bytes) returns (outcome: Outcome, charged: bool)
      requires idKey == Key(q.sender, q.messageId)
      modifies this
      ensures DbAcceptResult(View(), outcome, charged) == Insert(old(View()), q)
    {
      var expected := ReadNextSenderMsgId(q.sender);
      if q.senderMsgId != expected { return Refused(InvalidSequence), false; }
      charged := q.charge != NoCharge;
      if charged && !q.charge.ok { return Refused(ChargeRefused), true; }
      var record := Accepted(q.sender, q.senderMsgId, q.messageId, q.digest, q.target, q.data, false, 0);
      var encoded := MarshalRecord(record);
      if encoded.Err? { return Refused(encoded.error), charged; }
      if expected == LAST_ID { return Refused(InvalidSequence), charged; }
      acceptedBucket := acceptedBucket[idKey := encoded.value];
      nextBucket := nextBucket[q.sender := PutWord(expected + 1)];
      outcome := Admitted(record, false);
    }

    method Acknowledge(sender: Bytes, messageId: Bytes, senderMsgId: u64, sourceCore: Bytes, status: byte)
      returns (error: Option<MsgError>)
      modifies this
      ensures DbAckResult(View(), error) == DbMarkAck(old(View()), sender, messageId, senderMsgId, sourceCore, status)
    {
      if !ValidAccount(sender) || !ValidMessageId(messageId) || sourceCore == [] || status == 0 {
        return Some(InvalidEnvelope);
      }
      var key := Key(sender, messageId);
      if key !in acceptedBucket || |acceptedBucket[key]| == 0 { return Some(InvalidSequence); }
      var decoded := UnmarshalRecord(acceptedBucket[key]);
      if decoded.Err? { return Some(decoded.error); }
      var job := decoded.value;
      if job.senderMsgId != senderMsgId { return Some(InvalidSequence); }
      if job.target != sourceCore { return Some(InvalidEnvelope); }
      job := job.(status := status, final := status == ACK_OK || status == ACK_REJECTED);
      var encoded := MarshalRecord(job);
      if encoded.Err? { return Some(encoded.error); }
      acceptedBucket := acceptedBucket[key := encoded.value];
      error := None;
    }

    method ReadJob(k: Bytes) returns (job: Result<Accepted>)
      requires k in acceptedBucket
      ensures job.Ok? <==> Readable(acceptedBucket[k])
      ensures job.Ok? ==> job.value == Record(acceptedBucket[k])
      ensures job.Err? ==> job.error == InvalidEnvelope
    {
      job := UnmarshalRecord(acceptedBucket[k]);
    }

    /** The unfinished job under every key, ordered by sender and then by id. One unreadable
        record makes the whole listing fail. */
    method Pending() returns (pending: Result<seq<Accepted>>)
      ensures pending.Err? ==> pending.error == InvalidEnvelope
      ensures DbReply(View(), CallPending,
                      if pending.Ok? then Listed(pending.value) else Completed(Some(pending.error)))
    {
      ghost var s := Abs(View());
      assert s.accepted.Keys == acceptedBucket.Keys;
      var jobs := CollectPending(s);
      if jobs.Err? { return jobs; }
      SortJobsSorts(jobs.value);
      pending := Ok(SortJobs(jobs.value));
    }

    method CollectPending(ghost s: Store) returns (pending: Result<seq<Accepted>>)
      requires s.accepted.Keys == acceptedBucket.Keys
      requires forall k :: k in s.accepted ==> s.accepted[k] == Record(acceptedBucket[k])
      ensures pending.Ok? <==> DbOk(View())
      ensures pending.Ok? ==> Lists(s, pending.value)
      ensures pending.Err? ==> pending.error == InvalidEnvelope
    {
      var jobs: seq<Accepted> := [];
      var todo := acceptedBucket.Keys;
      ghost var all := UnfinishedUnder(s.accepted, todo);
      while todo != {}
        invariant todo <= acceptedBucket.Keys
        invariant forall k :: k in acceptedBucket && k !in todo ==> Readable(acceptedBucket[k])
        invariant multiset(jobs) + UnfinishedUnder(s.accepted, todo) == all
        decreases |todo|
      {
        var k :| k in todo;
        var more := AppendUnfinished(s.accepted, todo, all, jobs, k);
        if more.Err? { return more; }
        jobs, todo := more.value, todo - {k};
      }
      pending := Ok(jobs);
    }

    /** The bucket's callback: decode one record and keep it if it is unfinished. */
    method AppendUnfinished(ghost accepted: map<Bytes, Accepted>, ghost todo: set<Bytes>, ghost all: multiset<Accepted>,
                            jobs: seq<Accepted>, k: Bytes)
      returns (more: Result<seq<Accepted>>)
      requires k in acceptedBucket && k in accepted && accepted[k] == Record(acceptedBucket[k])
      requires k in todo && multiset(jobs) + UnfinishedUnder(accepted, todo) == all
      ensures more.Ok? <==> Readable(acceptedBucket[k])
      ensures more.Ok? ==> multiset(more.value) + UnfinishedUnder(accepted, todo - {k}) == all
      ensures more.Err? ==> more.error == InvalidEnvelope
    {
      var job := ReadJob(k);
      if job.Err? { return Err(job.error); }
      VisitOne(accepted, todo, k, jobs, all);
      more := Ok(if job.value.final then jobs else jobs + [job.value]);
    }

    /** Collect the keys of the expired records first, then delete them. */
    method PruneExpiredDirect(now: int) returns (error: Option<MsgError>)
      modifies this
      ensures DbAckResult(View(), error) == DbPrune(old(View()), now)
    {
      var expired := CollectWhere(job => Expired(job, now));
      if expired.Err? { return Some(expired.error); }
      assert acceptedBucket - expired.value == Filter(acceptedBucket, Record, job => !Expired(job, now));
      acceptedBucket := acceptedBucket - expired.value;
      error := None;
    }

    method CollectWhere(expired: Accepted -> bool) returns (keys: Result<set<Bytes>>)
      ensures keys.Err? ==> keys.error == InvalidEnvelope
      ensures keys.Ok? <==> DbOk(View())
      ensures keys.Ok? ==> keys.value == set k | k in acceptedBucket && expired(Record(acceptedBucket[k]))
    {
      var found: set<Bytes> := {};
      var todo := acceptedBucket.Keys;
      while todo != {}
        invariant todo <= acceptedBucket.Keys
        invariant forall k :: k in acceptedBucket && k !in todo ==> Readable(acceptedBucket[k])
        invariant found == set k | k in acceptedBucket && k !in todo && expired(Record(acceptedBucket[k]))
        decreases |todo|
      {
        var k :| k in todo;
        var job := ReadJob(k);
        if job.Err? { return Err(job.error); }
        if expired(job.value) { found := found + {k}; }
        todo := todo - {k};
      }
      keys := Ok(found);
    }
  }
}
