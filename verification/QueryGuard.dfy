/** Authorization of signed account queries: a nonce is used once, an expiry lies at most two
    minutes ahead, and each account and action has a budget a minute. Instants are nanoseconds. */
module QueryGuard {
  import opened Framing
  import opened MessageCodec
  import L = RateLimiter

  const MAX_FUTURE := 120_000_000_000
  const WINDOW := 60_000_000_000
  const LIMIT: u64 := 120
  const NONCE_SIZE := 32
  const QUERY_DOMAIN: Bytes := Ascii("satoshinet-message-service-query-v1")
  const NEXT_MESSAGE: Bytes := Ascii("NEXT_MESSAGE_ID")
  const TOPIC_STATE: Bytes := Ascii("TOPIC_STATE")

  /** A query, with the action in upper case and the topic trimmed, as they are signed. */
  datatype Query = Query(action: Bytes, account: Bytes, topic: Bytes, nonce: Bytes, expiresMs: u64, signature: Bytes)

  predicate Signable(q: Query) {
    && ValidAccount(q.account) && q.nonce != [] && q.expiresMs != 0
    && (q.action == NEXT_MESSAGE || (q.action == TOPIC_STATE && q.topic != []))
  }

  function Payload(q: Query): Bytes {
    PutField(QUERY_DOMAIN) +
      (PutField(q.action) + (PutField(q.account) + (PutField(q.topic) + (PutField(q.nonce) + PutWord(q.expiresMs)))))
  }

  /** A signature fixes the whole query. */
  lemma PayloadInjective(q: Query, r: Query)
    requires Payload(q) == Payload(r)
    ensures q == r.(signature := q.signature)
  {
    var (q5, r5) := (PutWord(q.expiresMs), PutWord(r.expiresMs));
    var (q4, r4) := (PutField(q.nonce) + q5, PutField(r.nonce) + r5);
    var (q3, r3) := (PutField(q.topic) + q4, PutField(r.topic) + r4);
    var (q2, r2) := (PutField(q.account) + q3, PutField(r.account) + r3);
    FieldInjective(QUERY_DOMAIN, QUERY_DOMAIN, PutField(q.action) + q2, PutField(r.action) + r2);
    FieldInjective(q.action, r.action, q2, r2);
    FieldInjective(q.account, r.account, q3, r3);
    FieldInjective(q.topic, r.topic, q4, r4);
    FieldInjective(q.nonce, r.nonce, q5, r5);
    assert q5 + [] == q5 && r5 + [] == r5;
    WordInjective(q.expiresMs, r.expiresMs, [], []);
  }

  /** The signed expiry as an instant: the unsigned milliseconds are read as signed ones. */
  function Expiry(q: Query): int {
    Signed64(q.expiresMs) * 1_000_000
  }

  function NonceKey(q: Query): Bytes {
    q.account + Ascii(":") + q.nonce
  }

  function UsageKey(q: Query): Bytes {
    q.account + Ascii(":") + q.action
  }

  datatype Usage = Usage(start: int, count: u64)
  datatype Guard = Guard(nonces: map<Bytes, int>, usage: map<Bytes, Usage>)
  datatype Verdict = Authorized | Refused | Limited(retryAfter: int)

  predicate ValidNonce(n: Bytes) {
    |n| == NONCE_SIZE && forall i :: 0 <= i < |n| ==> LowerHex(n[i])
  }

  /** The checks made before any state is looked at; `verify` is signature verification. */
  predicate Presentable(verify: (Bytes, Bytes, Bytes) -> bool, q: Query, now: int) {
    && ValidNonce(q.nonce)
    && now < Expiry(q) <= now + MAX_FUTURE
    && Signable(q) && verify(q.account, q.signature, Payload(q))
  }

  function Prune(nonces: map<Bytes, int>, now: int): map<Bytes, int> {
    map k | k in nonces && nonces[k] > now :: nonces[k]
  }

  function At(usage: map<Bytes, Usage>, key: Bytes): Usage {
    if key in usage then usage[key] else Usage(0, 0)
  }

  function Current(u: Usage, now: int): Usage {
    if u.start == 0 || now < u.start || now - u.start >= WINDOW then Usage(now, 0) else u
  }

  function Decide(verify: (Bytes, Bytes, Bytes) -> bool, g: Guard, q: Query, now: int): (Guard, Verdict) {
    if !Presentable(verify, q, now) then (g, Refused)
    else
      var nonces := Prune(g.nonces, now);
      var u := Current(At(g.usage, UsageKey(q)), now);
      if NonceKey(q) in nonces then (g.(nonces := nonces), Refused)
      else if u.count >= LIMIT then
        (g.(nonces := nonces), Limited(if WINDOW - (now - u.start) <= 0 then 1_000_000 else WINDOW - (now - u.start)))
      else
        (Guard(nonces[NonceKey(q) := Expiry(q)], g.usage[UsageKey(q) := u.(count := L.AddWord(u.count, 1))]),
          Authorized)
  }

  // ------------------------------------------------------------------- runs

  datatype Tick = Tick(now: int, query: Query)

  ghost predicate Clocked(ticks: seq<Tick>) {
    && (forall i :: 0 <= i < |ticks| ==> ticks[i].now > 0)
    && (forall i, j :: 0 <= i < j < |ticks| ==> ticks[i].now <= ticks[j].now)
  }

  /** The guard before tick `n` of a run. */
  function Before(verify: (Bytes, Bytes, Bytes) -> bool, ticks: seq<Tick>, n: nat): Guard
    requires n <= |ticks|
  {
    if n == 0 then Guard(map[], map[])
    else Decide(verify, Before(verify, ticks, n - 1), ticks[n - 1].query, ticks[n - 1].now).0
  }

  predicate Passes(verify: (Bytes, Bytes, Bytes) -> bool, ticks: seq<Tick>, n: nat)
    requires n < |ticks|
  {
    Decide(verify, Before(verify, ticks, n), ticks[n].query, ticks[n].now).1.Authorized?
  }

  /** A nonce in use stays on record until its expiry has passed. */
  lemma {:induction false} Remembered(verify: (Bytes, Bytes, Bytes) -> bool, ticks: seq<Tick>, i: nat, n: nat)
    requires i < n <= |ticks| && Clocked(ticks) && Passes(verify, ticks, i)
    requires forall k :: i < k < n ==> ticks[k].now < Expiry(ticks[i].query)
    ensures var g := Before(verify, ticks, n);
      NonceKey(ticks[i].query) in g.nonces && g.nonces[NonceKey(ticks[i].query)] == Expiry(ticks[i].query)
    decreases n
  {
    if n > i + 1 {
      Remembered(verify, ticks, i, n - 1);
      assert ticks[n - 1].now < Expiry(ticks[i].query);
    }
  }

  /** A nonce of an account is authorized again only after the expiry of its earlier use. */
  lemma NonceReuse(verify: (Bytes, Bytes, Bytes) -> bool, ticks: seq<Tick>, i: nat, j: nat)
    requires i < j < |ticks| && Clocked(ticks) && Passes(verify, ticks, i) && Passes(verify, ticks, j)
    requires ticks[i].query.account == ticks[j].query.account && ticks[i].query.nonce == ticks[j].query.nonce
    ensures Expiry(ticks[i].query) <= ticks[j].now < Expiry(ticks[j].query)
  {
    if ticks[j].now < Expiry(ticks[i].query) {
      Remembered(verify, ticks, i, j);
    }
  }

  /** No signed query is honoured twice, although nonces are forgotten when they expire. */
  lemma NeverTwice(verify: (Bytes, Bytes, Bytes) -> bool, ticks: seq<Tick>, i: nat, j: nat)
    requires i < j < |ticks| && Clocked(ticks) && Passes(verify, ticks, i) && Passes(verify, ticks, j)
    ensures Payload(ticks[i].query) != Payload(ticks[j].query)
  {
    if Payload(ticks[i].query) == Payload(ticks[j].query) {
      PayloadInjective(ticks[i].query, ticks[j].query);
      NonceReuse(verify, ticks, i, j);
    }
  }

  // ------------------------------------------------------- the query budget

  /** The authorized queries of the first `n` ticks that were counted under `key`. */
  function Counted(verify: (Bytes, Bytes, Bytes) -> bool, ticks: seq<Tick>, n: nat, key: Bytes): seq<L.Admission>
    requires n <= |ticks|
  {
    if n == 0 then []
    else
      var tick := ticks[n - 1];
      Counted(verify, ticks, n - 1, key)
      + Charged(Decide(verify, Before(verify, ticks, n - 1), tick.query, tick.now).1, tick.query, tick.now, key)
  }

  ghost predicate BudgetOk(h: seq<L.Admission>, u: Usage, clock: int) {
    if h == [] then u == Usage(0, 0)
    else u.start > 0 && u.count > 0 && L.Ledger(L.ONE, h, WINDOW, LIMIT, u.start, u.count, clock)
  }

  /** A refused query records nothing: budgets stay, and nonces are at most forgotten, and then
      only expired ones. */
  lemma RefusedRecordsNothing(verify: (Bytes, Bytes, Bytes) -> bool, g: Guard, q: Query, now: int)
    requires !Decide(verify, g, q, now).1.Authorized?
    ensures var after := Decide(verify, g, q, now).0;
      && after.usage == g.usage
      && (forall k :: k in after.nonces ==> k in g.nonces && after.nonces[k] == g.nonces[k])
      && (forall k :: k in g.nonces && g.nonces[k] > now ==> k in after.nonces)
  {
  }

  /** Only an authorized query touches a budget, and only its own. */
  lemma DecideUsage(verify: (Bytes, Bytes, Bytes) -> bool, g: Guard, q: Query, now: int, key: Bytes)
    ensures var (after, verdict) := Decide(verify, g, q, now);
      if verdict.Authorized? && UsageKey(q) == key then
        var u := Current(At(g.usage, key), now);
        u.count < LIMIT && At(after.usage, key) == Usage(u.start, u.count + 1)
      else At(after.usage, key) == At(g.usage, key)
  {
  }

  lemma BudgetCharge(h: seq<L.Admission>, u: Usage, clock: int, now: int)
    requires BudgetOk(h, u, clock) && 0 <= clock <= now && 0 < now && Current(u, now).count < LIMIT
    ensures BudgetOk(h + [L.Admission(now, 1)], Usage(Current(u, now).start, Current(u, now).count + 1), now)
  {
    L.LedgerCharge(L.ONE, h, WINDOW, LIMIT, u.start, u.count, clock, L.Admission(now, 1));
  }

  lemma BudgetLater(h: seq<L.Admission>, u: Usage, clock: int, now: int)
    requires BudgetOk(h, u, clock) && clock <= now
    ensures BudgetOk(h, u, now)
  {
    if h != [] { L.LedgerLater(L.ONE, h, WINDOW, LIMIT, u.start, u.count, clock, now); }
  }

  function Charged(verdict: Verdict, q: Query, now: int, key: Bytes): seq<L.Admission> {
    if verdict.Authorized? && UsageKey(q) == key then [L.Admission(now, 1)] else []
  }

  lemma BudgetStep(verify: (Bytes, Bytes, Bytes) -> bool, g: Guard, q: Query, now: int, key: Bytes,
                   h: seq<L.Admission>, clock: int)
    requires BudgetOk(h, At(g.usage, key), clock) && 0 <= clock <= now && 0 < now
    ensures var (after, verdict) := Decide(verify, g, q, now);
      BudgetOk(h + Charged(verdict, q, now, key), At(after.usage, key), now)
  {
    DecideUsage(verify, g, q, now, key);
    var (after, verdict) := Decide(verify, g, q, now);
    if verdict.Authorized? && UsageKey(q) == key {
      BudgetCharge(h, At(g.usage, key), clock, now);
    } else {
      assert h + Charged(verdict, q, now, key) == h;
      BudgetLater(h, At(g.usage, key), clock, now);
    }
  }

  lemma {:induction false} RunKeepsBudget(verify: (Bytes, Bytes, Bytes) -> bool, ticks: seq<Tick>, n: nat, key: Bytes)
    requires n <= |ticks| && Clocked(ticks)
    ensures BudgetOk(Counted(verify, ticks, n, key), At(Before(verify, ticks, n).usage, key),
                     if n == 0 then 0 else ticks[n - 1].now)
    decreases n
  {
    if n > 0 {
      RunKeepsBudget(verify, ticks, n - 1, key);
      var (g, tick) := (Before(verify, ticks, n - 1), ticks[n - 1]);
      var clock := if n == 1 then 0 else ticks[n - 2].now;
      BudgetStep(verify, g, tick.query, tick.now, key, Counted(verify, ticks, n - 1, key), clock);
    }
  }

  /** However queries are timed, every minute sees less than twice the budget of an account and
      action, and the window on record never holds more than the budget. */
  lemma AnyMinuteBelowTwice(verify: (Bytes, Bytes, Bytes) -> bool, ticks: seq<Tick>, key: Bytes, t: int)
    requires Clocked(ticks)
    ensures L.Load(L.ONE, Counted(verify, ticks, |ticks|, key), WINDOW, t) < 2 * LIMIT
    ensures At(Before(verify, ticks, |ticks|).usage, key).count <= LIMIT
  {
    RunKeepsBudget(verify, ticks, |ticks|, key);
  }

  /** Nonces are never kept for longer than the two minutes an expiry may lie ahead. */
  lemma {:induction false} NoncesShortLived(verify: (Bytes, Bytes, Bytes) -> bool, ticks: seq<Tick>, n: nat, key: Bytes)
    requires 0 < n <= |ticks| && Clocked(ticks) && key in Before(verify, ticks, n).nonces
    ensures Before(verify, ticks, n).nonces[key] <= ticks[n - 1].now + MAX_FUTURE
    decreases n
  {
    if n > 1 && key in Before(verify, ticks, n - 1).nonces {
      NoncesShortLived(verify, ticks, n - 1, key);
    }
  }

  // ------------------------------------------------------------ the verdict

  /** What a query must be, whoever asks and whatever was asked before: 32 lower-case hexadecimal
      digits of nonce, an expiry in the next two minutes, an account, and one of two actions. */
  predicate InOrder(q: Query, now: int) {
    && |q.nonce| == 32 && (forall i :: 0 <= i < 32 ==> LowerHex(q.nonce[i]))
    && now < q.expiresMs * 1_000_000 <= now + 120_000_000_000 && q.expiresMs < 0x8000_0000_0000_0000
    && ValidAccount(q.account)
    && (q.action == Ascii("NEXT_MESSAGE_ID") || (q.action == Ascii("TOPIC_STATE") && q.topic != []))
  }

  lemma InOrderExact(verify: (Bytes, Bytes, Bytes) -> bool, q: Query, now: int)
    requires 0 <= now
    ensures Presentable(verify, q, now) <==> InOrder(q, now) && verify(q.account, q.signature, Payload(q))
  {
    ExpiryExact(q);
  }

  /** Milliseconds beyond the signed range count as past. */
  lemma ExpiryExact(q: Query)
    ensures Expiry(q) == if q.expiresMs < 0x8000_0000_0000_0000 then q.expiresMs * 1_000_000
                         else (q.expiresMs - TWO64) * 1_000_000
  {
  }

  /** The minute that began at `u.start` is not over. */
  predicate Open(u: Usage, now: int) {
    u.start != 0 && u.start <= now < u.start + 60_000_000_000
  }

  /** A query is authorized exactly if it is in order, its account signed it, its nonce is not in
      use, and its account and action have budget left in the minute that is open. */
  lemma AuthorizedIff(verify: (Bytes, Bytes, Bytes) -> bool, g: Guard, q: Query, now: int)
    requires 0 <= now
    ensures Decide(verify, g, q, now).1.Authorized? <==>
      && InOrder(q, now) && verify(q.account, q.signature, Payload(q))
      && (NonceKey(q) in g.nonces ==> g.nonces[NonceKey(q)] <= now)
      && (Open(At(g.usage, UsageKey(q)), now) ==> At(g.usage, UsageKey(q)).count < 120)
  {
    InOrderExact(verify, q, now);
  }

  /** A query in order that is only over its budget is told how long to wait: the minute is over
      exactly from then on. Every other query that is not authorized is refused. */
  lemma LimitedExact(verify: (Bytes, Bytes, Bytes) -> bool, g: Guard, q: Query, now: int)
    requires 0 <= now
    ensures var verdict := Decide(verify, g, q, now).1;
      var u := At(g.usage, UsageKey(q));
      && (verdict.Limited? <==>
            && InOrder(q, now) && verify(q.account, q.signature, Payload(q))
            && (NonceKey(q) in g.nonces ==> g.nonces[NonceKey(q)] <= now) && Open(u, now) && u.count >= 120)
      && (verdict.Limited? ==> forall later :: now <= later ==> (Open(u, later) <==> later < now + verdict.retryAfter))
  {
    InOrderExact(verify, q, now);
  }

  /** Keys name accounts, nonces and actions. */
  lemma KeysName(q: Query, r: Query)
    requires |q.account| == |r.account|
    ensures NonceKey(q) == NonceKey(r) <==> q.account == r.account && q.nonce == r.nonce
    ensures UsageKey(q) == UsageKey(r) <==> q.account == r.account && q.action == r.action
  {
    var n := |q.account|;
    assert NonceKey(q)[..n] == q.account && NonceKey(r)[..n] == r.account;
    assert NonceKey(q)[n + 1..] == q.nonce && NonceKey(r)[n + 1..] == r.nonce;
    assert UsageKey(q)[..n] == q.account && UsageKey(r)[..n] == r.account;
    assert UsageKey(q)[n + 1..] == q.action && UsageKey(r)[n + 1..] == r.action;
  }

  /** A nonce on record is that of an authorized query, with its expiry. */
  lemma {:induction false} NonceOrigin(verify: (Bytes, Bytes, Bytes) -> bool, ticks: seq<Tick>, n: nat, key: Bytes)
    returns (i: nat)
    requires n <= |ticks| && key in Before(verify, ticks, n).nonces
    ensures i < n && Passes(verify, ticks, i) && NonceKey(ticks[i].query) == key
    ensures Before(verify, ticks, n).nonces[key] == Expiry(ticks[i].query)
    decreases n
  {
    var tick := ticks[n - 1];
    if Passes(verify, ticks, n - 1) && NonceKey(tick.query) == key {
      i := n - 1;
    } else {
      i := NonceOrigin(verify, ticks, n - 1, key);
    }
  }

  /** The nonce was used by this account in a query that has not expired. */
  ghost predicate InUse(verify: (Bytes, Bytes, Bytes) -> bool, ticks: seq<Tick>, n: nat)
    requires n < |ticks|
  {
    exists i :: 0 <= i < n && Passes(verify, ticks, i) && ticks[i].query.account == ticks[n].query.account &&
                ticks[i].query.nonce == ticks[n].query.nonce && ticks[n].now < Expiry(ticks[i].query)
  }

  lemma PassedAccount(verify: (Bytes, Bytes, Bytes) -> bool, ticks: seq<Tick>, i: nat)
    requires i < |ticks| && Passes(verify, ticks, i)
    ensures ValidAccount(ticks[i].query.account)
  {
  }

  lemma InUseExact(verify: (Bytes, Bytes, Bytes) -> bool, ticks: seq<Tick>, n: nat)
    requires n < |ticks| && Clocked(ticks) && ValidAccount(ticks[n].query.account)
    ensures var g := Before(verify, ticks, n);
      InUse(verify, ticks, n) <==>
        NonceKey(ticks[n].query) in g.nonces && g.nonces[NonceKey(ticks[n].query)] > ticks[n].now
  {
    var g := Before(verify, ticks, n);
    var key := NonceKey(ticks[n].query);
    if InUse(verify, ticks, n) {
      var i :| 0 <= i < n && Passes(verify, ticks, i) && ticks[i].query.account == ticks[n].query.account &&
               ticks[i].query.nonce == ticks[n].query.nonce && ticks[n].now < Expiry(ticks[i].query);
      Remembered(verify, ticks, i, n);
    }
    if key in g.nonces && g.nonces[key] > ticks[n].now {
      var i := NonceOrigin(verify, ticks, n, key);
      PassedAccount(verify, ticks, i);
      KeysName(ticks[i].query, ticks[n].query);
    }
  }

  /** The authorized queries of an account for an action among the first `n` ticks. */
  function Authorizations(verify: (Bytes, Bytes, Bytes) -> bool, ticks: seq<Tick>, n: nat, account: Bytes,
                          action: Bytes):
    seq<L.Admission>
    requires n <= |ticks|
  {
    if n == 0 then []
    else
      var q := ticks[n - 1].query;
      Authorizations(verify, ticks, n - 1, account, action) +
      if Passes(verify, ticks, n - 1) && q.account == account && q.action == action then
        [L.Admission(ticks[n - 1].now, 1)]
      else []
  }

  lemma {:induction false} CountedFor(verify: (Bytes, Bytes, Bytes) -> bool, ticks: seq<Tick>, n: nat, q: Query)
    requires n <= |ticks| && ValidAccount(q.account)
    ensures Counted(verify, ticks, n, UsageKey(q)) == Authorizations(verify, ticks, n, q.account, q.action)
    decreases n
  {
    if n > 0 {
      CountedFor(verify, ticks, n - 1, q);
      if Passes(verify, ticks, n - 1) {
        PassedAccount(verify, ticks, n - 1);
        KeysName(ticks[n - 1].query, q);
      }
    }
  }

  /** How often the account was authorized for the action since the open minute began. */
  function UsedSoFar(verify: (Bytes, Bytes, Bytes) -> bool, ticks: seq<Tick>, n: nat): nat
    requires n < |ticks|
  {
    var (q, now) := (ticks[n].query, ticks[n].now);
    var u := At(Before(verify, ticks, n).usage, UsageKey(q));
    if Open(u, now) then L.Sum(L.ONE, Authorizations(verify, ticks, n, q.account, q.action), u.start, now + 1) else 0
  }

  lemma UsedIsCount(verify: (Bytes, Bytes, Bytes) -> bool, ticks: seq<Tick>, n: nat)
    requires n < |ticks| && Clocked(ticks) && ValidAccount(ticks[n].query.account)
    ensures var u := At(Before(verify, ticks, n).usage, UsageKey(ticks[n].query));
      Open(u, ticks[n].now) ==> u.count == UsedSoFar(verify, ticks, n)
  {
    var (q, now) := (ticks[n].query, ticks[n].now);
    var u := At(Before(verify, ticks, n).usage, UsageKey(q));
    RunKeepsBudget(verify, ticks, n, UsageKey(q));
    CountedFor(verify, ticks, n, q);
    if Open(u, now) {
      var h := Counted(verify, ticks, n, UsageKey(q));
      BudgetLater(h, u, if n == 0 then 0 else ticks[n - 1].now, now);
    }
  }

  /** Over every run with a clock that does not go back, a query is authorized if and only if it is
      in order, its account signed it, that account has not used the nonce in a query that is still
      valid, and fewer than 120 queries of the account for the action were authorized since the open
      minute began. */
  lemma PassesIff(verify: (Bytes, Bytes, Bytes) -> bool, ticks: seq<Tick>, n: nat)
    requires n < |ticks| && Clocked(ticks)
    ensures var (q, now) := (ticks[n].query, ticks[n].now);
      Passes(verify, ticks, n) <==>
        && InOrder(q, now) && verify(q.account, q.signature, Payload(q))
        && !InUse(verify, ticks, n) && UsedSoFar(verify, ticks, n) < 120
  {
    var (q, now) := (ticks[n].query, ticks[n].now);
    AuthorizedIff(verify, Before(verify, ticks, n), q, now);
    if ValidAccount(q.account) {
      InUseExact(verify, ticks, n);
      UsedIsCount(verify, ticks, n);
    }
  }

  /** An account that was authorized for the action fewer than 120 times in the last minute has
      budget left. */
  lemma QuietMinute(verify: (Bytes, Bytes, Bytes) -> bool, ticks: seq<Tick>, n: nat)
    requires n < |ticks|
    requires var (q, now) := (ticks[n].query, ticks[n].now);
      L.Sum(L.ONE, Authorizations(verify, ticks, n, q.account, q.action), now - 60_000_000_000 + 1, now + 1) < 120
    ensures UsedSoFar(verify, ticks, n) < 120
  {
    var (q, now) := (ticks[n].query, ticks[n].now);
    var u := At(Before(verify, ticks, n).usage, UsageKey(q));
    if Open(u, now) {
      L.SumWider(L.ONE, Authorizations(verify, ticks, n, q.account, q.action), u.start, now + 1,
                 now - 60_000_000_000 + 1, now + 1);
    }
  }

  class MessageServiceQueryGuard {
    const verify: (Bytes, Bytes, Bytes) -> bool
    var nonces: map<Bytes, int>
    var usage: map<Bytes, Usage>

    constructor (v: (Bytes, Bytes, Bytes) -> bool)
      ensures verify == v && View() == Guard(map[], map[])
    {
      verify := v;
      nonces := map[];
      usage := map[];
    }

    function View(): Guard
      reads this
    {
      Guard(nonces, usage)
    }

    method Authorize(q: Query, now: int) returns (verdict: Verdict)
      modifies this
      ensures (View(), verdict) == Decide(verify, old(View()), q, now)
    {
      if !ValidNonce(q.nonce) { return Refused; }
      var expiresAt := Expiry(q);
      if expiresAt <= now || expiresAt > now + MAX_FUTURE { return Refused; }
      if !Signable(q) || !verify(q.account, q.signature, Payload(q)) { return Refused; }
      PruneNonces(now);
      if NonceKey(q) in nonces { return Refused; }
      var u := Current(At(usage, UsageKey(q)), now);
      if u.count >= LIMIT {
        var retry := WINDOW - (now - u.start);
        if retry <= 0 { retry := 1_000_000; }
        return Limited(retry);
      }
      nonces := nonces[NonceKey(q) := expiresAt];
      u := u.(count := L.AddWord(u.count, 1));
      usage := usage[UsageKey(q) := u];
      return Authorized;
    }

    method PruneNonces(now: int)
      modifies this`nonces
      ensures nonces == Prune(old(nonces), now)
    {
      ghost var before := nonces;
      var todo := nonces.Keys;
      while todo != {}
        invariant todo <= before.Keys
        invariant nonces == map k | k in before && (k in todo || before[k] > now) :: before[k]
        decreases |todo|
      {
        var k :| k in todo;
        if nonces[k] <= now {
          nonces := nonces - {k};
        }
        todo := todo - {k};
      }
    }
  }
}
