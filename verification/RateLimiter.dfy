/** Fixed-window admission of free Direct traffic: every call is charged to four keys
    (sender, pair, recipient, total), each with a message and a byte limit. Instants are
    nanoseconds; 0 is the clock's zero value, which a running clock never shows. */
module RateLimiter {
  import opened Framing
  import opened MessageCodec

  const MAX_SIZE: int := 0x7fff_ffff_ffff_ffff

  datatype Usage = Usage(start: int, messages: u64, bytes: u64)
  datatype Limit = Limit(messages: u64, bytes: u64)
  datatype Policy = Policy(window: int, limits: seq<Limit>)

  /** One minute; 60 messages and 16 MiB a sender, 20 and 8 MiB a pair, 300 and 64 MiB a
      recipient, 10000 and 1 GiB in all. */
  const DEFAULT_POLICY := Policy(60_000_000_000,
    [Limit(60, 16 * 1024 * 1024), Limit(20, 8 * 1024 * 1024), Limit(300, 64 * 1024 * 1024),
      Limit(10_000, 1024 * 1024 * 1024)])

  function AddWord(a: u64, b: u64): u64 {
    (a + b) % TWO64
  }

  datatype Call = Call(direction: Bytes, sender: Bytes, recipient: Bytes, size: int)

  predicate ValidCall(c: Call) {
    c.direction != [] && ValidAccount(c.sender) && ValidAccount(c.recipient) && 0 < c.size <= MAX_SIZE
  }

  function Keys(c: Call): (k: seq<Bytes>)
    ensures |k| == 4
  {
    [c.direction + Ascii(":sender:") + c.sender,
     c.direction + Ascii(":pair:") + c.sender + Ascii(":") + c.recipient,
     c.direction + Ascii(":recipient:") + c.recipient,
     c.direction + Ascii(":total")]
  }

  /** The usage a key has at `now`: what is recorded, or an empty window starting now. */
  function Current(u: Usage, now: int, window: int): Usage {
    if u.start == 0 || now - u.start >= window || now < u.start then Usage(now, 0, 0) else u
  }

  predicate Exceeded(u: Usage, size: u64, limit: Limit) {
    || limit.messages == 0 || limit.bytes == 0
    || AddWord(u.messages, 1) > limit.messages || AddWord(u.bytes, size) > limit.bytes
  }

  function Bump(u: Usage, size: u64): Usage {
    u.(messages := AddWord(u.messages, 1), bytes := AddWord(u.bytes, size))
  }

  function At(usage: map<Bytes, Usage>, key: Bytes): Usage {
    if key in usage then usage[key] else Usage(0, 0, 0)
  }

  datatype Verdict = Admitted | Invalid | Limited(retryAfter: int)

  predicate Blocks(p: Policy, usage: map<Bytes, Usage>, c: Call, now: int, i: int)
    requires ValidCall(c) && |p.limits| == 4 && 0 <= i < 4
  {
    Exceeded(Current(At(usage, Keys(c)[i]), now, p.window), c.size, p.limits[i])
  }

  function RetryAfter(p: Policy, u: Usage, now: int): int {
    var retry := p.window - (now - u.start);
    if retry <= 0 then 1_000_000 else retry
  }

  /** The first key from `i` on that blocks the call, or 4. */
  function FirstBlock(p: Policy, usage: map<Bytes, Usage>, c: Call, now: int, i: nat): (k: nat)
    requires ValidCall(c) && |p.limits| == 4 && i <= 4
    ensures i <= k <= 4
    ensures k < 4 ==> Blocks(p, usage, c, now, k)
    ensures forall j :: i <= j < k ==> !Blocks(p, usage, c, now, j)
    decreases 4 - i
  {
    if i == 4 || Blocks(p, usage, c, now, i) then i else FirstBlock(p, usage, c, now, i + 1)
  }

  /** Charge the first `n` keys, each from its own current window. */
  function Charge(p: Policy, usage: map<Bytes, Usage>, c: Call, now: int, n: nat): map<Bytes, Usage>
    requires ValidCall(c) && n <= 4
  {
    if n == 0 then usage
    else Charge(p, usage, c, now, n - 1)[Keys(c)[n - 1] :=
      Bump(Current(At(usage, Keys(c)[n - 1]), now, p.window), c.size)]
  }

  function Decide(p: Policy, usage: map<Bytes, Usage>, c: Call, now: int): (map<Bytes, Usage>, Verdict)
    requires |p.limits| == 4
  {
    if !ValidCall(c) then (usage, Invalid)
    else
      var k := FirstBlock(p, usage, c, now, 0);
      if k < 4 then (usage, Limited(RetryAfter(p, Current(At(usage, Keys(c)[k]), now, p.window), now)))
      else (Charge(p, usage, c, now, 4), Admitted)
  }

  // ---------------------------------------------------------- wrap-around

  /** The test the code means: one more message, `size` more bytes. */
  predicate Over(u: Usage, size: int, limit: Limit) {
    u.messages + 1 > limit.messages || u.bytes + size > limit.bytes
  }

  /** The bytes of `n` messages of `largest` bytes. */
  function Times(n: nat, largest: nat): nat {
    if n == 0 then 0 else Times(n - 1, largest) + largest
  }

  lemma {:induction false} TimesIsProduct(n: nat, largest: nat)
    ensures Times(n, largest) == n * largest
  {
    if n > 0 {
      TimesIsProduct(n - 1, largest);
      assert n * largest == (n - 1) * largest + largest;
    }
  }

  lemma {:induction false} TimesMonotone(m: nat, n: nat, largest: nat)
    requires m <= n
    ensures Times(m, largest) <= Times(n, largest)
  {
    if m < n { TimesMonotone(m, n - 1, largest); }
  }

  lemma {:induction false} TimesAtLeast(n: nat, largest: nat)
    requires largest > 0
    ensures n <= Times(n, largest)
  {
    if n > 0 { TimesAtLeast(n - 1, largest); }
  }

  /** What messages of 1 to `largest` bytes can add up to. */
  ghost predicate Addable(u: Usage, largest: nat) {
    u.messages <= u.bytes <= Times(u.messages, largest)
  }

  /** Every such usage is a sum of such messages. */
  lemma {:induction false} AddableIsSum(messages: nat, bytes: nat, largest: nat) returns (sizes: seq<nat>)
    requires messages <= bytes <= Times(messages, largest)
    ensures |sizes| == messages && Total(sizes) == bytes && forall i :: 0 <= i < messages ==> 1 <= sizes[i] <= largest
  {
    if messages == 0 {
      sizes := [];
    } else {
      var last := if bytes - (messages - 1) <= largest then bytes - (messages - 1) else largest;
      if largest > 0 { TimesAtLeast(messages - 1, largest); }
      var rest := AddableIsSum(messages - 1, bytes - last, largest);
      sizes := rest + [last];
    }
  }

  function Total(sizes: seq<nat>): nat {
    if sizes == [] then 0 else Total(sizes[..|sizes| - 1]) + sizes[|sizes| - 1]
  }

  /** The most bytes a window can hold while its message limit still lets a message in. */
  function Most(limit: Limit, largest: nat): nat
    requires limit.messages > 0
  {
    var room := Times(limit.messages - 1, largest);
    if limit.messages == TWO64 - 1 || limit.bytes <= room then limit.bytes else room
  }

  /** Limits that admit nothing, or under which no 64-bit sum wraps. */
  predicate Sound(limit: Limit, largest: nat) {
    limit.messages == 0 || limit.bytes == 0 || Most(limit, largest) + largest < TWO64
  }

  ghost predicate TestExact(limit: Limit, largest: nat)
    requires largest <= MAX_SIZE
  {
    forall u: Usage, size: int ::
      Addable(u, largest) && u.messages <= limit.messages && u.bytes <= limit.bytes && 0 < size <= largest ==>
      (Exceeded(u, size, limit) <==> Over(u, size, limit))
  }

  lemma {:induction false} RoundUp(bytes: nat, largest: nat) returns (m: nat)
    requires bytes > 0 && largest > 0
    ensures 0 < m <= bytes && Times(m - 1, largest) < bytes <= Times(m, largest)
    decreases bytes
  {
    if bytes <= largest {
      m := 1;
    } else {
      var n := RoundUp(bytes - largest, largest);
      m := n + 1;
    }
  }

  /** If the limits are not sound, a window that messages can fill lets one more wrap. */
  lemma UnsoundWraps(limit: Limit, largest: nat) returns (u: Usage)
    requires 0 < largest <= MAX_SIZE && !Sound(limit, largest)
    ensures Addable(u, largest) && u.messages <= limit.messages && u.bytes <= limit.bytes
    ensures Over(u, largest, limit) && !Exceeded(u, largest, limit) && u.bytes > 0 && u.bytes + largest > limit.bytes
  {
    var bytes := Most(limit, largest);
    var m := RoundUp(bytes, largest);
    if limit.messages < TWO64 - 1 && m > limit.messages - 1 {
      TimesMonotone(limit.messages - 1, m - 1, largest);
    }
    u := Usage(1, m, bytes);
    assert AddWord(u.bytes, largest) == u.bytes + largest - TWO64;
  }

  lemma BelowMost(limit: Limit, largest: nat, u: Usage)
    requires Addable(u, largest) && u.messages < limit.messages && u.bytes <= limit.bytes
    ensures u.bytes <= Most(limit, largest)
  {
    TimesMonotone(u.messages, limit.messages - 1, largest);
  }

  /** Sums below `most` and one more message do not wrap. */
  lemma UnwrappedExact(limit: Limit, u: Usage, size: int, most: nat)
    requires 0 < size && most + size < TWO64 && u.messages <= u.bytes
    requires 0 < limit.messages && 0 < limit.bytes && u.messages <= limit.messages && u.bytes <= limit.bytes
    requires u.messages < limit.messages ==> u.bytes <= most
    requires limit.messages == TWO64 - 1 ==> limit.bytes <= most
    ensures Exceeded(u, size, limit) <==> Over(u, size, limit)
  {
    if u.messages < limit.messages {
      assert AddWord(u.messages, 1) == u.messages + 1 && AddWord(u.bytes, size) == u.bytes + size;
    } else {
      assert AddWord(u.messages, 1) == u.messages + 1;
    }
  }

  lemma SoundExact(limit: Limit, largest: nat, u: Usage, size: int)
    requires 0 < largest <= MAX_SIZE && Sound(limit, largest) && limit.messages > 0 && limit.bytes > 0
    requires Addable(u, largest) && u.messages <= limit.messages && u.bytes <= limit.bytes && 0 < size <= largest
    ensures Exceeded(u, size, limit) <==> Over(u, size, limit)
  {
    if u.messages < limit.messages { BelowMost(limit, largest, u); }
    UnwrappedExact(limit, u, size, Most(limit, largest));
  }

  /** With calls of up to `largest` bytes, the 64-bit test is the intended one on everything a
      window can hold exactly for sound limits. */
  lemma TestExactIffSound(limit: Limit, largest: nat)
    requires 0 < largest <= MAX_SIZE
    ensures TestExact(limit, largest) <==> Sound(limit, largest)
  {
    if !Sound(limit, largest) {
      var u := UnsoundWraps(limit, largest);
      assert Exceeded(u, largest, limit) != Over(u, largest, limit);
    } else if limit.messages > 0 && limit.bytes > 0 {
      forall u: Usage, size: int | Addable(u, largest) && u.messages <= limit.messages && u.bytes <= limit.bytes &&
        0 < size <= largest
        ensures Exceeded(u, size, limit) <==> Over(u, size, limit)
      {
        SoundExact(limit, largest, u, size);
      }
    }
  }

  /** Limits of up to 2^63 bytes are sound for calls of any size. */
  lemma SoundUpTo63(limit: Limit, largest: nat)
    requires 0 < largest <= MAX_SIZE && limit.bytes <= 0x8000_0000_0000_0000
    ensures Sound(limit, largest)
  {
  }

  // ------------------------------------------------------- one key over time

  /** An admission charged to a key. */
  datatype Admission = Admission(time: int, size: int)

  /** What `f` adds up to over the admissions at times in [lo, hi). */
  function Sum(f: Admission -> nat, h: seq<Admission>, lo: int, hi: int): nat {
    if h == [] then 0
    else
      var last := h[|h| - 1];
      Sum(f, h[..|h| - 1], lo, hi) + if lo <= last.time < hi then f(last) else 0
  }

  lemma {:induction false} SumSplit(f: Admission -> nat, h: seq<Admission>, lo: int, mid: int, hi: int)
    requires lo <= mid <= hi
    ensures Sum(f, h, lo, hi) == Sum(f, h, lo, mid) + Sum(f, h, mid, hi)
  {
    if h != [] { SumSplit(f, h[..|h| - 1], lo, mid, hi); }
  }

  lemma {:induction false} SumWider(f: Admission -> nat, h: seq<Admission>, lo: int, hi: int, lo': int, hi': int)
    requires lo' <= lo && hi <= hi'
    ensures Sum(f, h, lo, hi) <= Sum(f, h, lo', hi')
  {
    if h != [] { SumWider(f, h[..|h| - 1], lo, hi, lo', hi'); }
  }

  lemma {:induction false} SumPast(f: Admission -> nat, h: seq<Admission>, lo: int, hi: int, hi': int)
    requires hi <= hi' && forall i :: 0 <= i < |h| ==> h[i].time < hi
    ensures Sum(f, h, lo, hi') == Sum(f, h, lo, hi)
  {
    if h != [] { SumPast(f, h[..|h| - 1], lo, hi, hi'); }
  }

  lemma SumAppend(f: Admission -> nat, h: seq<Admission>, a: Admission, lo: int, hi: int)
    ensures Sum(f, h + [a], lo, hi) == Sum(f, h, lo, hi) + if lo <= a.time < hi then f(a) else 0
  {
    assert (h + [a])[..|h|] == h;
  }

  /** What an interval of one window length that begins at `t` holds. */
  function Load(f: Admission -> nat, h: seq<Admission>, window: int, t: int): nat {
    Sum(f, h, t, t + window)
  }

  /** `total` is what the window that began at `start`, with its first admission, has used;
      `cap` is its limit. */
  ghost predicate Ledger(f: Admission -> nat, h: seq<Admission>, window: int, cap: nat, start: int, total: nat,
                         clock: int)
  {
    && window > 0 && start <= clock && cap > 0
    && (forall i :: 0 <= i < |h| ==> h[i].time <= clock && h[i].time < start + window)
    && Sum(f, h, start, clock + 1) == total <= cap
    && (total > 0 ==> Sum(f, h, start, start + 1) > 0)
    && Sum(f, h, start - window + 1, start) < cap
    && (forall t :: Load(f, h, window, t) < 2 * cap)
  }

  lemma LedgerLater(f: Admission -> nat, h: seq<Admission>, window: int, cap: nat, start: int, total: nat, clock: int,
                    now: int)
    requires Ledger(f, h, window, cap, start, total, clock) && clock <= now
    ensures Ledger(f, h, window, cap, start, total, now)
  {
    SumPast(f, h, start, clock + 1, now + 1);
  }

  /** A window that is over is replaced by an empty one, and it was the only one that can
      still share an interval with the new one; its first admission cannot. */
  lemma LedgerRollover(f: Admission -> nat, h: seq<Admission>, window: int, cap: nat, start: int, total: nat,
                       clock: int, now: int)
    requires Ledger(f, h, window, cap, start, total, clock) && clock <= now && now - start >= window
    ensures Ledger(f, h, window, cap, now, 0, now)
  {
    SumPast(f, h, start, clock + 1, now + 1);
    SumPast(f, h, now, now, now + 1);
    SumEmpty(f, h, now);
    SumSplit(f, h, start, start + 1, now + 1);
    SumWider(f, h, now - window + 1, now, start + 1, now + 1);
  }

  lemma {:induction false} SumEmpty(f: Admission -> nat, h: seq<Admission>, t: int)
    ensures Sum(f, h, t, t) == 0
  {
    if h != [] { SumEmpty(f, h[..|h| - 1], t); }
  }

  /** An interval that holds the new admission holds at most the current window and what of
      the one before lies within a window length of it. */
  lemma LoadAdmit(f: Admission -> nat, h: seq<Admission>, window: int, cap: nat, start: int, total: nat, clock: int,
                  a: Admission, t: int)
    requires Ledger(f, h, window, cap, start, total, clock)
    requires clock <= a.time < start + window && total + f(a) <= cap && t <= a.time < t + window
    ensures Load(f, h + [a], window, t) < 2 * cap
  {
    var g := h + [a];
    SumPast(f, h, start, clock + 1, t + window);
    SumAppend(f, h, a, start, t + window);
    SumAppend(f, h, a, start - window + 1, start);
    if t <= start {
      SumSplit(f, g, t, start, t + window);
      SumWider(f, g, t, start, start - window + 1, start);
    } else {
      SumWider(f, g, t, t + window, start, t + window);
    }
  }

  lemma LoadAfter(f: Admission -> nat, h: seq<Admission>, window: int, cap: nat, start: int, total: nat, clock: int,
                  a: Admission, t: int)
    requires Ledger(f, h, window, cap, start, total, clock)
    requires clock <= a.time < start + window && total + f(a) <= cap
    ensures Load(f, h + [a], window, t) < 2 * cap
  {
    if t <= a.time < t + window {
      LoadAdmit(f, h, window, cap, start, total, clock, a, t);
    } else {
      SumAppend(f, h, a, t, t + window);
      assert Load(f, h, window, t) < 2 * cap;
    }
  }

  /** What an admission adds to the current window, and to the stretch before it. */
  lemma WindowAfter(f: Admission -> nat, h: seq<Admission>, window: int, cap: nat, start: int, total: nat, clock: int,
                    a: Admission)
    requires Ledger(f, h, window, cap, start, total, clock) && clock <= a.time
    ensures Sum(f, h + [a], start, a.time + 1) == total + f(a)
    ensures Sum(f, h + [a], start, start + 1) == Sum(f, h, start, start + 1) + if a.time == start then f(a) else 0
    ensures Sum(f, h + [a], start - window + 1, start) == Sum(f, h, start - window + 1, start)
  {
    SumPast(f, h, start, clock + 1, a.time + 1);
    SumAppend(f, h, a, start, a.time + 1);
    SumAppend(f, h, a, start, start + 1);
    SumAppend(f, h, a, start - window + 1, start);
  }

  /** Admitting within the limit keeps every interval of one window length below twice it. */
  lemma LedgerAdmit(f: Admission -> nat, h: seq<Admission>, window: int, cap: nat, start: int, total: nat, clock: int,
                    a: Admission)
    requires Ledger(f, h, window, cap, start, total, clock) && 0 < f(a) && (total > 0 || a.time == start)
    requires clock <= a.time < start + window && total + f(a) <= cap
    ensures Ledger(f, h + [a], window, cap, start, total + f(a), a.time)
  {
    WindowAfter(f, h, window, cap, start, total, clock, a);
    forall t ensures Load(f, h + [a], window, t) < 2 * cap {
      LoadAfter(f, h, window, cap, start, total, clock, a, t);
    }
  }

  // -------------------------------------------------- the limiter over time

  datatype Tick = Tick(now: int, call: Call)

  /** Usage after a run of calls on a new limiter. */
  function Run(p: Policy, ticks: seq<Tick>): map<Bytes, Usage>
    requires |p.limits| == 4
  {
    if ticks == [] then map[]
    else
      var last := ticks[|ticks| - 1];
      Decide(p, Run(p, ticks[..|ticks| - 1]), last.call, last.now).0
  }

  predicate Charged(p: Policy, ticks: seq<Tick>, key: Bytes)
    requires |p.limits| == 4 && ticks != []
  {
    var last := ticks[|ticks| - 1];
    && Decide(p, Run(p, ticks[..|ticks| - 1]), last.call, last.now).1.Admitted?
    && key in Keys(last.call)
  }

  /** The admitted calls of the run that were charged to `key`. */
  function Admissions(p: Policy, ticks: seq<Tick>, key: Bytes): seq<Admission>
    requires |p.limits| == 4
  {
    if ticks == [] then []
    else
      var last := ticks[|ticks| - 1];
      Admissions(p, ticks[..|ticks| - 1], key) +
      if Charged(p, ticks, key) then [Admission(last.now, last.call.size)] else []
  }

  ghost predicate Clocked(ticks: seq<Tick>) {
    && (forall i :: 0 <= i < |ticks| ==> ticks[i].now > 0)
    && (forall i, j :: 0 <= i < j < |ticks| ==> ticks[i].now <= ticks[j].now)
  }

  /** The byte before the separator of a key's last account, or the last byte of a total. */
  function Mark(k: Bytes): byte
    requires k != []
  {
    if k[|k| - 1] != 'l' as int && |k| > ACCOUNT_SIZE + 1 then k[|k| - ACCOUNT_SIZE - 2] else k[|k| - 1]
  }

  lemma MarkOfAccount(d: Bytes, mid: Bytes, account: Bytes)
    requires |mid| > 1 && ValidAccount(account)
    ensures Mark(d + mid + account) == mid[|mid| - 2]
  {
    var k := d + mid + account;
    assert k[|k| - 1] == account[|account| - 1] && Hex(k[|k| - 1]);
    assert |d + mid| == |k| - ACCOUNT_SIZE;
    assert k[|k| - ACCOUNT_SIZE - 2] == (d + mid)[|d| + |mid| - 2] == mid[|mid| - 2];
  }

  lemma MarkOfKey(c: Call, i: int)
    requires ValidCall(c) && 0 <= i < 4
    ensures Keys(c)[i] != []
    ensures i == 0 ==> Mark(Keys(c)[i]) == 'r' as int
    ensures i == 1 ==> Hex(Mark(Keys(c)[i]))
    ensures i == 2 ==> Mark(Keys(c)[i]) == 't' as int
    ensures i == 3 ==> Mark(Keys(c)[i]) == 'l' as int
  {
    match i
    case 0 => MarkOfAccount(c.direction, Ascii(":sender:"), c.sender);
    case 1 =>
      var mid := c.sender + Ascii(":");
      MarkOfAccount(c.direction + Ascii(":pair:"), mid, c.recipient);
      assert Keys(c)[1] == c.direction + Ascii(":pair:") + mid + c.recipient;
      assert mid[|mid| - 2] == c.sender[|c.sender| - 1];
    case 2 => MarkOfAccount(c.direction, Ascii(":recipient:"), c.recipient);
    case 3 =>
      var k := c.direction + Ascii(":total");
      assert k[|k| - 1] == Ascii(":total")[5] == 'l' as int;
  }

  /** A key tells which of the four limits it is under, whatever the direction. */
  lemma KeyKind(c: Call, i: int, d: Call, j: int)
    requires ValidCall(c) && ValidCall(d) && 0 <= i < 4 && 0 <= j < 4
    requires Keys(c)[i] == Keys(d)[j]
    ensures i == j
  {
    MarkOfKey(c, i);
    MarkOfKey(d, j);
  }

  /** A refused call leaves every counter as it was; an admitted one adds one message and
      its size to the current window of its own four keys, and to nothing else. */
  lemma AdmitExact(p: Policy, usage: map<Bytes, Usage>, c: Call, now: int, key: Bytes)
    requires |p.limits| == 4
    ensures var (after, verdict) := Decide(p, usage, c, now);
      && (!verdict.Admitted? ==> after == usage)
      && (verdict.Admitted? ==>
        && ValidCall(c)
        && (key !in Keys(c) ==> At(after, key) == At(usage, key))
        && (forall i | 0 <= i < 4 && Keys(c)[i] == key ::
          && !Blocks(p, usage, c, now, i)
          && At(after, key) == Bump(Current(At(usage, key), now, p.window), c.size)))
  {
    if Decide(p, usage, c, now).1.Admitted? {
      forall i, j | 0 <= i < 4 && 0 <= j < 4 && Keys(c)[i] == Keys(c)[j] ensures i == j {
        KeyKind(c, i, c, j);
      }
      ChargeAt(p, usage, c, now, 4, key);
    }
  }

  lemma {:induction false} ChargeAt(p: Policy, usage: map<Bytes, Usage>, c: Call, now: int, n: nat, key: Bytes)
    requires ValidCall(c) && n <= 4
    ensures At(Charge(p, usage, c, now, n), key)
      == if key in Keys(c)[..n] then Bump(Current(At(usage, key), now, p.window), c.size) else At(usage, key)
  {
    if n > 0 {
      ChargeAt(p, usage, c, now, n - 1, key);
      assert Keys(c)[..n] == Keys(c)[..n - 1] + [Keys(c)[n - 1]];
    }
  }

  const ONE: Admission -> nat := (a: Admission) => 1
  const SIZE: Admission -> nat := (a: Admission) => if a.size < 0 then 0 else a.size

  /** What a run leaves on record for a key: nothing, or two ledgers within its limit. */
  ghost predicate KeyOk(p: Policy, limit: Limit, largest: nat, h: seq<Admission>, u: Usage, clock: int) {
    if h == [] then u == Usage(0, 0, 0)
    else
      && u.start > 0 && u.messages > 0 && Addable(u, largest)
      && Ledger(ONE, h, p.window, limit.messages, u.start, u.messages, clock)
      && Ledger(SIZE, h, p.window, limit.bytes, u.start, u.bytes, clock)
  }

  /** One charge of either kind, in the recorded window or in a new one. */
  lemma LedgerCharge(f: Admission -> nat, h: seq<Admission>, window: int, cap: nat, start: int, total: nat,
                     clock: int, a: Admission)
    requires window > 0 && clock <= a.time && 0 < f(a)
    requires h == [] || (Ledger(f, h, window, cap, start, total, clock) && total > 0)
    requires (if h == [] || a.time - start >= window then 0 else total) + f(a) <= cap
    ensures
      var (s, t) := if h == [] || a.time - start >= window then (a.time, 0) else (start, total);
      Ledger(f, h + [a], window, cap, s, t + f(a), a.time)
  {
    if h == [] {
      LedgerAdmit(f, h, window, cap, a.time, 0, a.time, a);
    } else if a.time - start >= window {
      LedgerRollover(f, h, window, cap, start, total, clock, a.time);
      LedgerAdmit(f, h, window, cap, a.time, 0, a.time, a);
    } else {
      LedgerAdmit(f, h, window, cap, start, total, clock, a);
    }
  }

  lemma WithinAfter(v: Usage, size: int, limit: Limit, largest: nat)
    requires 0 < size <= largest <= MAX_SIZE && Sound(limit, largest) && !Exceeded(v, size, limit)
    requires Addable(v, largest) && v.messages <= limit.messages && v.bytes <= limit.bytes
    ensures v.messages + 1 <= limit.messages && v.bytes + size <= limit.bytes
    ensures Bump(v, size) == Usage(v.start, v.messages + 1, v.bytes + size) && Addable(Bump(v, size), largest)
  {
    SoundExact(limit, largest, v, size);
  }

  /** What a charge that is not refused comes to. */
  lemma ChargeWithin(p: Policy, limit: Limit, largest: nat, h: seq<Admission>, u: Usage, clock: int, now: int,
                     size: int)
    requires KeyOk(p, limit, largest, h, u, clock)
    requires 0 < size <= largest <= MAX_SIZE && Sound(limit, largest)
    requires !Exceeded(Current(u, now, p.window), size, limit)
    ensures var v := Current(u, now, p.window);
      && v.messages + 1 <= limit.messages && v.bytes + size <= limit.bytes
      && Bump(v, size) == Usage(v.start, v.messages + 1, v.bytes + size) && Addable(Bump(v, size), largest)
  {
    WithinAfter(Current(u, now, p.window), size, limit, largest);
  }

  /** One of the two ledgers of a key, when a charge opens a new window or not. */
  lemma LedgerNext(f: Admission -> nat, h: seq<Admission>, window: int, cap: nat, start: int, total: nat, clock: int,
                   a: Admission, s: int, t: nat)
    requires window > 0 && 0 <= clock <= a.time && 0 < a.time && 0 < f(a) && t + f(a) <= cap
    requires if h == [] then start == 0 else start > 0 && total > 0 && Ledger(f, h, window, cap, start, total, clock)
    requires (s, t) == if start == 0 || a.time - start >= window || a.time < start then (a.time, 0) else (start, total)
    ensures Ledger(f, h + [a], window, cap, s, t + f(a), a.time)
  {
    LedgerCharge(f, h, window, cap, start, total, clock, a);
  }

  /** One charge to a key whose limits it does not exceed. */
  lemma KeyCharge(p: Policy, limit: Limit, largest: nat, h: seq<Admission>, u: Usage, clock: int, now: int, size: int)
    requires KeyOk(p, limit, largest, h, u, clock) && 0 <= clock <= now && 0 < now && p.window > 0
    requires 0 < size <= largest <= MAX_SIZE && Sound(limit, largest)
    requires !Exceeded(Current(u, now, p.window), size, limit)
    ensures KeyOk(p, limit, largest, h + [Admission(now, size)], Bump(Current(u, now, p.window), size), now)
  {
    ChargeWithin(p, limit, largest, h, u, clock, now, size);
    var (v, a) := (Current(u, now, p.window), Admission(now, size));
    LedgerNext(ONE, h, p.window, limit.messages, u.start, u.messages, clock, a, v.start, v.messages);
    LedgerNext(SIZE, h, p.window, limit.bytes, u.start, u.bytes, clock, a, v.start, v.bytes);
  }

  /** No call is larger; both callers refuse messages over the ciphertext limit first. */
  ghost predicate Sized(ticks: seq<Tick>, largest: nat) {
    0 < largest <= MAX_SIZE && forall i :: 0 <= i < |ticks| ==> ticks[i].call.size <= largest
  }

  lemma KeyLater(p: Policy, limit: Limit, largest: nat, h: seq<Admission>, u: Usage, clock: int, now: int)
    requires KeyOk(p, limit, largest, h, u, clock) && clock <= now
    ensures KeyOk(p, limit, largest, h, u, now)
  {
    if h != [] {
      LedgerLater(ONE, h, p.window, limit.messages, u.start, u.messages, clock, now);
      LedgerLater(SIZE, h, p.window, limit.bytes, u.start, u.bytes, clock, now);
    }
  }

  lemma {:induction false} RunKeepsKeyOk(p: Policy, largest: nat, ticks: seq<Tick>, c: Call, i: int)
    requires |p.limits| == 4 && p.window > 0 && ValidCall(c) && 0 <= i < 4 && Clocked(ticks)
    requires Sized(ticks, largest) && Sound(p.limits[i], largest)
    ensures KeyOk(p, p.limits[i], largest, Admissions(p, ticks, Keys(c)[i]), At(Run(p, ticks), Keys(c)[i]),
                  if ticks == [] then 0 else ticks[|ticks| - 1].now)
    decreases ticks
  {
    if ticks != [] {
      var n := |ticks| - 1;
      var (init, last, key) := (ticks[..n], ticks[n], Keys(c)[i]);
      RunKeepsKeyOk(p, largest, init, c, i);
      var clock := if init == [] then 0 else init[n - 1].now;
      assert clock <= last.now;
      AdmitExact(p, Run(p, init), last.call, last.now, key);
      var (h, u) := (Admissions(p, init, key), At(Run(p, init), key));
      if Charged(p, ticks, key) {
        var j :| 0 <= j < 4 && Keys(last.call)[j] == key;
        KeyKind(last.call, j, c, i);
        KeyCharge(p, p.limits[i], largest, h, u, clock, last.now, last.call.size);
      } else {
        assert Admissions(p, ticks, key) == h;
        KeyLater(p, p.limits[i], largest, h, u, clock, last.now);
      }
    }
  }

  /** Whatever is offered and whenever: an interval of one window length holds less than twice
      a key's limit of admitted messages, and of bytes. */
  lemma AnyIntervalBelowTwice(p: Policy, largest: nat, ticks: seq<Tick>, c: Call, i: int, t: int)
    requires |p.limits| == 4 && p.window > 0 && ValidCall(c) && 0 <= i < 4 && Clocked(ticks)
    requires Sized(ticks, largest) && Sound(p.limits[i], largest)
    ensures var h := Admissions(p, ticks, Keys(c)[i]);
      h != [] ==>
        Load(ONE, h, p.window, t) < 2 * p.limits[i].messages && Load(SIZE, h, p.window, t) < 2 * p.limits[i].bytes
    ensures p.limits[i].messages == 0 || p.limits[i].bytes == 0 ==> Admissions(p, ticks, Keys(c)[i]) == []
  {
    RunKeepsKeyOk(p, largest, ticks, c, i);
  }

  // ------------------------------------------------------------ the verdict

  /** The calls concern the same thing under limit `i`: the sender, the pair, the recipient or all,
      in one direction. */
  predicate SameSubject(c: Call, d: Call, i: int) {
    && c.direction == d.direction && (i == 0 || i == 1 ==> c.sender == d.sender)
    && (i == 1 || i == 2 ==> c.recipient == d.recipient)
  }

  lemma SameTail(a: Bytes, b: Bytes, mid: Bytes, x: Bytes, y: Bytes)
    requires a + mid + x == b + mid + y && |x| == |y|
    ensures a == b && x == y
  {
    var (s, t) := (a + mid + x, b + mid + y);
    assert |a| == |b|;
    assert s[..|a|] == a && t[..|a|] == b;
    assert s[|a| + |mid|..] == x && t[|a| + |mid|..] == y;
  }

  /** A key names exactly what its limit is about. */
  lemma KeysName(c: Call, d: Call, i: int)
    requires ValidCall(c) && ValidCall(d) && 0 <= i < 4
    ensures Keys(c)[i] == Keys(d)[i] <==> SameSubject(c, d, i)
  {
    if Keys(c)[i] == Keys(d)[i] {
      match i
      case 0 => SameTail(c.direction, d.direction, Ascii(":sender:"), c.sender, d.sender);
      case 1 =>
        SameTail(c.direction + Ascii(":pair:") + c.sender, d.direction + Ascii(":pair:") + d.sender, Ascii(":"),
                 c.recipient, d.recipient);
        SameTail(c.direction, d.direction, Ascii(":pair:"), c.sender, d.sender);
      case 2 => SameTail(c.direction, d.direction, Ascii(":recipient:"), c.recipient, d.recipient);
      case 3 =>
        assert c.direction + Ascii(":total") + [] == Keys(c)[3] && d.direction + Ascii(":total") + [] == Keys(d)[3];
        SameTail(c.direction, d.direction, Ascii(":total"), [], []);
    }
  }

  /** A limit refuses a call exactly if what its open window holds leaves no room; a window that is
      over, was never opened, or lies ahead of a clock that went back holds nothing. */
  lemma BlocksExact(p: Policy, largest: nat, usage: map<Bytes, Usage>, c: Call, now: int, i: int)
    requires |p.limits| == 4 && ValidCall(c) && 0 <= i < 4 && c.size <= largest <= MAX_SIZE
    requires Sound(p.limits[i], largest)
    requires var u := At(usage, Keys(c)[i]);
      Addable(u, largest) && u.messages <= p.limits[i].messages && u.bytes <= p.limits[i].bytes
    ensures var u := At(usage, Keys(c)[i]);
      var open := u.start != 0 && u.start <= now < u.start + p.window;
      !Blocks(p, usage, c, now, i) <==>
        HasRoom(p.limits[i], if open then u.messages else 0, if open then u.bytes else 0, c.size)
  {
    RoomOf(p.limits[i], largest, Current(At(usage, Keys(c)[i]), now, p.window), c.size);
  }

  /** An admitted call is counted in the open window, or opens a new one now. */
  lemma CountedWhere(p: Policy, usage: map<Bytes, Usage>, c: Call, now: int, i: int)
    requires |p.limits| == 4 && 0 <= i < 4 && Decide(p, usage, c, now).1.Admitted?
    requires var u := At(usage, Keys(c)[i]); u.messages + 1 < TWO64 && u.bytes + c.size < TWO64
    ensures var u := At(usage, Keys(c)[i]);
      At(Decide(p, usage, c, now).0, Keys(c)[i]) ==
        if u.start != 0 && u.start <= now < u.start + p.window then Usage(u.start, u.messages + 1, u.bytes + c.size)
        else Usage(now, 1, c.size)
  {
    AdmitExact(p, usage, c, now, Keys(c)[i]);
    var u := At(usage, Keys(c)[i]);
    AddWordExact(u.messages, 1);
    AddWordExact(u.bytes, c.size);
  }

  /** So the admissions of a key are the admitted calls about the same thing. */
  lemma ChargedExact(p: Policy, ticks: seq<Tick>, c: Call, i: int)
    requires |p.limits| == 4 && ticks != [] && ValidCall(c) && 0 <= i < 4
    ensures var last := ticks[|ticks| - 1];
      Charged(p, ticks, Keys(c)[i]) <==>
        Decide(p, Run(p, ticks[..|ticks| - 1]), last.call, last.now).1.Admitted? && SameSubject(last.call, c, i)
  {
    var last := ticks[|ticks| - 1].call;
    if Decide(p, Run(p, ticks[..|ticks| - 1]), last, ticks[|ticks| - 1].now).1.Admitted? {
      KeysName(last, c, i);
      if Keys(c)[i] in Keys(last) {
        var j :| 0 <= j < 4 && Keys(last)[j] == Keys(c)[i];
        KeyKind(last, j, c, i);
      }
    }
  }

  /** What of `f` the key was charged since its open window began. */
  function UsedSoFar(f: Admission -> nat, p: Policy, ticks: seq<Tick>, key: Bytes, now: int): nat
    requires |p.limits| == 4
  {
    UsedOf(f, Admissions(p, ticks, key), At(Run(p, ticks), key), now, p.window)
  }

  /** The limit has room for one more message of this size. */
  predicate HasRoom(limit: Limit, messages: nat, bytes: nat, size: int) {
    limit.messages > 0 && limit.bytes > 0 && messages + 1 <= limit.messages && bytes + size <= limit.bytes
  }

  /** The window on record, if it is open. */
  function UsedOf(f: Admission -> nat, h: seq<Admission>, u: Usage, now: int, window: int): nat {
    if u.start != 0 && u.start <= now < u.start + window then Sum(f, h, u.start, now + 1) else 0
  }

  lemma CurrentUsed(p: Policy, limit: Limit, largest: nat, h: seq<Admission>, u: Usage, now: int)
    requires KeyOk(p, limit, largest, h, u, now) && p.window > 0
    ensures var v := Current(u, now, p.window);
      && v.messages == UsedOf(ONE, h, u, now, p.window) && v.bytes == UsedOf(SIZE, h, u, now, p.window)
      && Addable(v, largest) && v.messages <= limit.messages && v.bytes <= limit.bytes
  {
  }

  lemma RoomOf(limit: Limit, largest: nat, v: Usage, size: int)
    requires 0 < size <= largest <= MAX_SIZE && Sound(limit, largest)
    requires Addable(v, largest) && v.messages <= limit.messages && v.bytes <= limit.bytes
    ensures !Exceeded(v, size, limit) <==> HasRoom(limit, v.messages, v.bytes, size)
  {
    if limit.messages > 0 && limit.bytes > 0 { SoundExact(limit, largest, v, size); }
  }

  lemma RoomIff(p: Policy, largest: nat, ticks: seq<Tick>, c: Call, now: int, i: int)
    requires |p.limits| == 4 && p.window > 0 && ValidCall(c) && 0 <= i < 4 && Clocked(ticks + [Tick(now, c)])
    requires Sized(ticks + [Tick(now, c)], largest) && Sound(p.limits[i], largest)
    ensures !Blocks(p, Run(p, ticks), c, now, i) <==>
      HasRoom(p.limits[i], UsedSoFar(ONE, p, ticks, Keys(c)[i], now), UsedSoFar(SIZE, p, ticks, Keys(c)[i], now),
        c.size)
  {
    var all := ticks + [Tick(now, c)];
    assert all[|ticks|] == Tick(now, c) && forall j :: 0 <= j < |ticks| ==> all[j] == ticks[j];
    RunKeepsKeyOk(p, largest, ticks, c, i);
    var (h, u) := (Admissions(p, ticks, Keys(c)[i]), At(Run(p, ticks), Keys(c)[i]));
    KeyLater(p, p.limits[i], largest, h, u, if ticks == [] then 0 else ticks[|ticks| - 1].now, now);
    CurrentUsed(p, p.limits[i], largest, h, u, now);
    RoomOf(p.limits[i], largest, Current(u, now, p.window), c.size);
  }

  /** Over every run with a clock that does not go back, a call is admitted if and only if it is
      valid and each of its four limits has room for it beside what was admitted since that limit's
      window began. */
  lemma AdmittedIff(p: Policy, largest: nat, ticks: seq<Tick>, c: Call, now: int)
    requires |p.limits| == 4 && p.window > 0 && Clocked(ticks + [Tick(now, c)])
    requires Sized(ticks + [Tick(now, c)], largest) && forall i :: 0 <= i < 4 ==> Sound(p.limits[i], largest)
    ensures Decide(p, Run(p, ticks), c, now).1.Admitted? <==>
      ValidCall(c) && forall i :: 0 <= i < 4 ==>
        HasRoom(p.limits[i], UsedSoFar(ONE, p, ticks, Keys(c)[i], now), UsedSoFar(SIZE, p, ticks, Keys(c)[i], now),
          c.size)
  {
    if ValidCall(c) {
      forall i | 0 <= i < 4
        ensures !Blocks(p, Run(p, ticks), c, now, i) <==>
          HasRoom(p.limits[i], UsedSoFar(ONE, p, ticks, Keys(c)[i], now), UsedSoFar(SIZE, p, ticks, Keys(c)[i], now),
                  c.size)
      {
        RoomIff(p, largest, ticks, c, now, i);
      }
    }
  }

  // ------------------------------------------------------ the bound is met

  /** The same limit on all four keys, with bytes to spare for messages of one byte. */
  ghost predicate Uniform(p: Policy, limit: Limit) {
    && |p.limits| == 4 && (forall i :: 0 <= i < 4 ==> p.limits[i] == limit)
    && p.window > 1 && 0 < limit.messages <= limit.bytes
  }

  /** Calls of one byte, over and over: what they are charged to, and one of the keys to watch. */
  datatype Drill = Drill(policy: Policy, limit: Limit, call: Call, keys: seq<Bytes>, key: Bytes)

  ghost predicate DrillOk(d: Drill) {
    Uniform(d.policy, d.limit) && ValidCall(d.call) && d.call.size == 1 && d.keys == Keys(d.call) && d.key in d.keys
  }

  ghost predicate Same(usage: map<Bytes, Usage>, keys: seq<Bytes>, u: Usage) {
    forall i :: 0 <= i < |keys| ==> At(usage, keys[i]) == u
  }

  /** Where a run has got to: what the keys show, and what the one was charged. */
  ghost predicate Reached(d: Drill, ticks: seq<Tick>, u: Usage, h: seq<Admission>) {
    |d.policy.limits| == 4 && Same(Run(d.policy, ticks), d.keys, u) && Admissions(d.policy, ticks, d.key) == h
  }

  /** The window has room for `n` more. */
  predicate Room(d: Drill, u: Usage, now: int, n: nat) {
    var v := Current(u, now, d.policy.window);
    now > 0 && v.messages == v.bytes && v.messages + n <= d.limit.messages
  }

  /** What a key shows after `n` calls at one instant. */
  function Used(d: Drill, u: Usage, now: int, n: nat): Usage
    requires Room(d, u, now, n)
  {
    var v := Current(u, now, d.policy.window);
    if n == 0 then u else Usage(v.start, v.messages + n, v.messages + n)
  }

  lemma UniformAdmit(d: Drill, usage: map<Bytes, Usage>, now: int, u: Usage)
    requires DrillOk(d) && Same(usage, d.keys, u) && Room(d, u, now, 1)
    ensures Decide(d.policy, usage, d.call, now).1.Admitted?
    ensures Same(Decide(d.policy, usage, d.call, now).0, d.keys, Used(d, u, now, 1))
  {
    assert forall i :: 0 <= i < 4 ==> !Blocks(d.policy, usage, d.call, now, i);
    forall i | 0 <= i < 4
      ensures At(Decide(d.policy, usage, d.call, now).0, d.keys[i]) == Bump(Current(u, now, d.policy.window), 1)
    {
      AdmitExact(d.policy, usage, d.call, now, d.keys[i]);
    }
  }

  lemma AppendTick(p: Policy, ticks: seq<Tick>, tick: Tick, key: Bytes)
    requires |p.limits| == 4
    ensures Run(p, ticks + [tick]) == Decide(p, Run(p, ticks), tick.call, tick.now).0
    ensures Decide(p, Run(p, ticks), tick.call, tick.now).1.Admitted? && key in Keys(tick.call) ==>
      Admissions(p, ticks + [tick], key) == Admissions(p, ticks, key) + [Admission(tick.now, tick.call.size)]
  {
    assert (ticks + [tick])[..|ticks|] == ticks;
  }

  /** Each call the window has room for is admitted. */
  lemma ReachedTick(d: Drill, ticks: seq<Tick>, now: int, u: Usage, h: seq<Admission>)
    requires DrillOk(d) && Reached(d, ticks, u, h) && Room(d, u, now, 1)
    ensures Reached(d, ticks + [Tick(now, d.call)], Used(d, u, now, 1), h + [Admission(now, 1)])
  {
    UniformAdmit(d, Run(d.policy, ticks), now, u);
    AppendTick(d.policy, ticks, Tick(now, d.call), d.key);
  }

  /** What a run can reach, each call the window has room for leads on. */
  ghost predicate Admitting(reach: (seq<Tick>, Usage, seq<Admission>) -> bool, d: Drill) {
    forall ticks, now, u, h :: reach(ticks, u, h) && Room(d, u, now, 1) ==>
      reach(ticks + [Tick(now, d.call)], Used(d, u, now, 1), h + [Admission(now, 1)])
  }

  function Ticks(c: Call, now: int, n: nat): seq<Tick> {
    if n == 0 then [] else Ticks(c, now, n - 1) + [Tick(now, c)]
  }

  function Copies(now: int, n: nat): seq<Admission> {
    if n == 0 then [] else Copies(now, n - 1) + [Admission(now, 1)]
  }

  lemma Rejoin<T>(a: seq<T>, b: seq<T>, x: T)
    ensures a + (b + [x]) == (a + b) + [x]
  {
  }

  lemma UsedStep(d: Drill, u: Usage, now: int, n: nat)
    requires n > 0 && d.policy.window > 0 && Room(d, u, now, n)
    ensures Room(d, u, now, n - 1) && Room(d, Used(d, u, now, n - 1), now, 1)
    ensures Used(d, u, now, n) == Used(d, Used(d, u, now, n - 1), now, 1)
  {
  }

  /** Calls at one instant are all admitted while the window has room. */
  lemma {:induction false} BurstAdmits(reach: (seq<Tick>, Usage, seq<Admission>) -> bool, d: Drill, ticks: seq<Tick>,
                                       now: int, n: nat,
                                       u: Usage, h: seq<Admission>)
    requires Admitting(reach, d) && d.policy.window > 0 && reach(ticks, u, h) && Room(d, u, now, n)
    ensures reach(ticks + Ticks(d.call, now, n), Used(d, u, now, n), h + Copies(now, n))
    decreases n
  {
    if n == 0 {
      assert ticks + Ticks(d.call, now, 0) == ticks && h + Copies(now, 0) == h;
    } else {
      UsedStep(d, u, now, n);
      BurstAdmits(reach, d, ticks, now, n - 1, u, h);
      Rejoin(ticks, Ticks(d.call, now, n - 1), Tick(now, d.call));
      Rejoin(h, Copies(now, n - 1), Admission(now, 1));
    }
  }

  lemma {:induction false} SumCopies(h: seq<Admission>, now: int, n: nat, lo: int, hi: int)
    ensures Sum(ONE, h + Copies(now, n), lo, hi) == Sum(ONE, h, lo, hi) + if lo <= now < hi then n else 0
  {
    if n == 0 {
      assert h + [] == h;
    } else {
      SumCopies(h, now, n - 1, lo, hi);
      SumAppend(ONE, h + Copies(now, n - 1), Admission(now, 1), lo, hi);
      Rejoin(h, Copies(now, n - 1), Admission(now, 1));
    }
  }

  lemma LoadOfBursts(w: int, n: nat)
    requires w > 1 && n > 0
    ensures Load(ONE, Copies(1, 1) + Copies(w, n - 1) + Copies(w + 1, n), w, 2) == 2 * n - 1
  {
    SumCopies([], 1, 1, 2, 2 + w);
    assert [] + Copies(1, 1) == Copies(1, 1);
    SumCopies(Copies(1, 1), w, n - 1, 2, 2 + w);
    SumCopies(Copies(1, 1) + Copies(w, n - 1), w + 1, n, 2, 2 + w);
  }

  lemma ThreeBursts(reach: (seq<Tick>, Usage, seq<Admission>) -> bool, d: Drill)
    requires Admitting(reach, d) && d.policy.window > 1 && 0 < d.limit.messages && reach([], Usage(0, 0, 0), [])
    ensures var (w, n) := (d.policy.window, d.limit.messages);
      reach(Ticks(d.call, 1, 1) + Ticks(d.call, w, n - 1) + Ticks(d.call, w + 1, n), Usage(w + 1, n, n),
            Copies(1, 1) + Copies(w, n - 1) + Copies(w + 1, n))
  {
    var (w, n) := (d.policy.window, d.limit.messages);
    var (t1, h1) := (Ticks(d.call, 1, 1), Copies(1, 1));
    assert [] + t1 == t1 && [] + h1 == h1;
    BurstAdmits(reach, d, [], 1, 1, Usage(0, 0, 0), []);
    BurstAdmits(reach, d, t1, w, n - 1, Usage(1, 1, 1), h1);
    BurstAdmits(reach, d, t1 + Ticks(d.call, w, n - 1), w + 1, n, Usage(1, n, n), h1 + Copies(w, n - 1));
  }

  ghost function ReachOf(d: Drill): (seq<Tick>, Usage, seq<Admission>) -> bool {
    (ticks: seq<Tick>, u: Usage, h: seq<Admission>) => Reached(d, ticks, u, h)
  }

  lemma DrillAdmits(d: Drill)
    requires DrillOk(d)
    ensures Admitting(ReachOf(d), d)
  {
    forall ticks, now, u, h | Reached(d, ticks, u, h) && Room(d, u, now, 1)
      ensures Reached(d, ticks + [Tick(now, d.call)], Used(d, u, now, 1), h + [Admission(now, 1)])
    {
      ReachedTick(d, ticks, now, u, h);
    }
  }

  lemma DrillReaches(d: Drill)
    requires DrillOk(d)
    ensures var (w, n) := (d.policy.window, d.limit.messages);
      Admissions(d.policy, Ticks(d.call, 1, 1) + Ticks(d.call, w, n - 1) + Ticks(d.call, w + 1, n), d.key)
      == Copies(1, 1) + Copies(w, n - 1) + Copies(w + 1, n)
  {
    DrillAdmits(d);
    assert Reached(d, [], Usage(0, 0, 0), []);
    ThreeBursts(ReachOf(d), d);
  }

  /** The bound cannot be improved: one call that opens a window, the rest of its limit at its
      end, and a full limit at the start of the next put 2 * limit - 1 messages into one
      interval of a window length. */
  lemma BoundIsMet(p: Policy, limit: Limit, c: Call, key: Bytes)
    requires Uniform(p, limit) && ValidCall(c) && c.size == 1 && key in Keys(c)
    ensures var ticks :=
      Ticks(c, 1, 1) + Ticks(c, p.window, limit.messages - 1) + Ticks(c, p.window + 1, limit.messages);
      Load(ONE, Admissions(p, ticks, key), p.window, 2) == 2 * limit.messages - 1
  {
    DrillReaches(Drill(p, limit, c, Keys(c), key));
    LoadOfBursts(p.window, limit.messages);
  }

  // ----------------------------------------------- unsound limits are overrun

  /** Calls of these sizes, all at the instant 1. */
  function FillTicks(c: Call, sizes: seq<nat>): seq<Tick> {
    if sizes == [] then []
    else FillTicks(c, sizes[..|sizes| - 1]) + [Tick(1, c.(size := sizes[|sizes| - 1]))]
  }

  function FillAdmissions(sizes: seq<nat>): seq<Admission> {
    if sizes == [] then [] else FillAdmissions(sizes[..|sizes| - 1]) + [Admission(1, sizes[|sizes| - 1])]
  }

  /** One limit on all four keys, and sizes that calls can have. */
  ghost predicate FillOk(p: Policy, limit: Limit, c: Call, sizes: seq<nat>) {
    && |p.limits| == 4 && (forall i :: 0 <= i < 4 ==> p.limits[i] == limit) && p.window > 0 && ValidCall(c)
    && forall i :: 0 <= i < |sizes| ==> 1 <= sizes[i] <= MAX_SIZE
  }

  /** A call that no key refuses is charged to all four. */
  lemma EvenAdmit(p: Policy, limit: Limit, usage: map<Bytes, Usage>, c: Call, keys: seq<Bytes>, now: int, u: Usage)
    requires |p.limits| == 4 && (forall i :: 0 <= i < 4 ==> p.limits[i] == limit) && ValidCall(c) && keys == Keys(c)
    requires Same(usage, keys, u) && !Exceeded(Current(u, now, p.window), c.size, limit)
    ensures Decide(p, usage, c, now).1.Admitted?
    ensures Same(Decide(p, usage, c, now).0, keys, Bump(Current(u, now, p.window), c.size))
  {
    assert forall i :: 0 <= i < 4 ==> !Blocks(p, usage, c, now, i);
    forall i | 0 <= i < 4
      ensures At(Decide(p, usage, c, now).0, keys[i]) == Bump(Current(u, now, p.window), c.size)
    {
      AdmitExact(p, usage, c, now, keys[i]);
    }
  }

  /** What the keys show then, and what one of them was charged. */
  ghost predicate Filled(p: Policy, c: Call, sizes: seq<nat>, u: Usage, key: Bytes) {
    && |p.limits| == 4 && Same(Run(p, FillTicks(c, sizes)), Keys(c), u)
    && Admissions(p, FillTicks(c, sizes), key) == FillAdmissions(sizes)
  }

  lemma FillNext(p: Policy, limit: Limit, c: Call, sizes: seq<nat>, size: nat, u: Usage, key: Bytes)
    requires FillOk(p, limit, c, sizes) && 1 <= size <= MAX_SIZE && key in Keys(c) && Filled(p, c, sizes, u, key)
    requires !Exceeded(Current(u, 1, p.window), size, limit)
    ensures Filled(p, c, sizes + [size], Bump(Current(u, 1, p.window), size), key)
  {
    var call := c.(size := size);
    assert (sizes + [size])[..|sizes|] == sizes && Keys(call) == Keys(c);
    EvenAdmit(p, limit, Run(p, FillTicks(c, sizes)), call, Keys(c), 1, u);
    AppendTick(p, FillTicks(c, sizes), Tick(1, call), key);
  }

  function UsageOf(sizes: seq<nat>): Usage
    requires |sizes| < TWO64 && Total(sizes) < TWO64
  {
    if sizes == [] then Usage(0, 0, 0) else Usage(1, |sizes|, Total(sizes))
  }

  lemma AddWordExact(a: u64, b: u64)
    requires a + b < TWO64
    ensures AddWord(a, b) == a + b
  {
  }

  lemma TotalNext(sizes: seq<nat>, size: nat)
    ensures Total(sizes + [size]) == Total(sizes) + size
  {
    assert (sizes + [size])[..|sizes|] == sizes;
  }

  lemma UsageNext(limit: Limit, sizes: seq<nat>, size: nat, window: int)
    requires 0 < limit.messages && 0 < limit.bytes && window > 0 && 0 < size
    requires |sizes| + 1 <= limit.messages && Total(sizes) + size <= limit.bytes
    ensures Total(sizes + [size]) == Total(sizes) + size
    ensures !Exceeded(Current(UsageOf(sizes), 1, window), size, limit)
    ensures Bump(Current(UsageOf(sizes), 1, window), size) == UsageOf(sizes + [size])
  {
    TotalNext(sizes, size);
    AddWordExact(|sizes|, 1);
    AddWordExact(Total(sizes), size);
    assert Current(UsageOf(sizes), 1, window) == Usage(1, |sizes|, Total(sizes));
  }

  lemma FillNothing(p: Policy, c: Call, key: Bytes)
    requires |p.limits| == 4
    ensures Filled(p, c, [], UsageOf([]), key)
  {
  }

  /** Calls within the limit are all admitted, and the window shows their sum. */
  lemma {:induction false} FillAdmits(p: Policy, limit: Limit, c: Call, sizes: seq<nat>, key: Bytes)
    requires FillOk(p, limit, c, sizes) && key in Keys(c) && 0 < limit.messages && 0 < limit.bytes
    requires |sizes| <= limit.messages && Total(sizes) <= limit.bytes
    ensures Filled(p, c, sizes, UsageOf(sizes), key)
  {
    if sizes == [] {
      FillNothing(p, c, key);
    } else {
      var (init, last) := (sizes[..|sizes| - 1], sizes[|sizes| - 1]);
      assert sizes == init + [last];
      FillAdmits(p, limit, c, init, key);
      UsageNext(limit, init, last, p.window);
      FillNext(p, limit, c, init, last, UsageOf(init), key);
    }
  }

  lemma {:induction false} FillTimes(c: Call, sizes: seq<nat>, largest: nat)
    requires 0 < largest <= MAX_SIZE && forall i :: 0 <= i < |sizes| ==> 1 <= sizes[i] <= largest
    ensures Clocked(FillTicks(c, sizes)) && Sized(FillTicks(c, sizes), largest)
    ensures forall i :: 0 <= i < |FillTicks(c, sizes)| ==> FillTicks(c, sizes)[i].now == 1
  {
    if sizes != [] { FillTimes(c, sizes[..|sizes| - 1], largest); }
  }

  lemma {:induction false} FillLoad(sizes: seq<nat>, window: int)
    requires window > 0
    ensures Load(SIZE, FillAdmissions(sizes), window, 1) == Total(sizes)
  {
    if sizes != [] {
      var (init, last) := (sizes[..|sizes| - 1], sizes[|sizes| - 1]);
      FillLoad(init, window);
      SumAppend(SIZE, FillAdmissions(init), Admission(1, last), 1, 1 + window);
    }
  }

  /** Sound limits are needed as well as enough: with any others, on all four keys, calls of up to
      `largest` bytes on a new limiter are admitted, at one instant, beyond the limit. */
  lemma UnsoundOverrun(p: Policy, limit: Limit, largest: nat, c: Call, key: Bytes) returns (ticks: seq<Tick>)
    requires FillOk(p, limit, c, []) && key in Keys(c) && 0 < largest <= MAX_SIZE && !Sound(limit, largest)
    ensures Clocked(ticks) && Sized(ticks, largest)
    ensures Load(SIZE, Admissions(p, ticks, key), p.window, 1) > limit.bytes
  {
    var u := UnsoundWraps(limit, largest);
    var sizes := AddableIsSum(u.messages, u.bytes, largest);
    var more := sizes + [largest];
    assert more[..|sizes|] == sizes;
    FillAdmits(p, limit, c, sizes, key);
    FillNext(p, limit, c, sizes, largest, UsageOf(sizes), key);
    FillTimes(c, more, largest);
    FillLoad(more, p.window);
    ticks := FillTicks(c, more);
  }

  // ------------------------------------------------------------ retry advice

  predicate Open(u: Usage, now: int, window: int) {
    u.start != 0 && u.start <= now < u.start + window
  }

  /** The advice of a refusal is exact. If the blocking key has an open window, that window is
      over exactly when the advised time has passed; if it has none, the call is over the limit
      on its own and that key refuses it at any time, whatever is on record. */
  lemma RetryAfterExact(p: Policy, largest: nat, usage: map<Bytes, Usage>, c: Call, now: int)
    requires |p.limits| == 4 && p.window > 0 && now > 0 && c.size <= largest <= MAX_SIZE
    requires Decide(p, usage, c, now).1.Limited? && forall i | 0 <= i < 4 :: Sound(p.limits[i], largest)
    ensures ValidCall(c) && exists k | 0 <= k < 4 ::
      var u := At(usage, Keys(c)[k]);
      var retry := Decide(p, usage, c, now).1.retryAfter;
      && Blocks(p, usage, c, now, k)
      && (Open(u, now, p.window) ==> forall later | now <= later :: Open(u, later, p.window) <==> later < now + retry)
      && (!Open(u, now, p.window) ==> retry == p.window && AlwaysOver(c.size, p.limits[k], largest))
  {
    var k := FirstBlock(p, usage, c, now, 0);
    if !Open(At(usage, Keys(c)[k]), now, p.window) {
      assert Exceeded(Usage(now, 0, 0), c.size, p.limits[k]);
      FreshOver(Usage(now, 0, 0), c.size, p.limits[k], largest);
    }
  }

  /** The limit refuses a call of this size on everything a window can hold. */
  ghost predicate AlwaysOver(size: int, limit: Limit, largest: nat) {
    forall v: Usage ::
      Addable(v, largest) && v.messages <= limit.messages && v.bytes <= limit.bytes && 0 < size < TWO64 ==>
      Exceeded(v, size, limit)
  }

  lemma FreshOver(empty: Usage, size: int, limit: Limit, largest: nat)
    requires 0 < size <= largest <= MAX_SIZE && Sound(limit, largest) && empty.messages == empty.bytes == 0 &&
      Exceeded(empty, size, limit)
    ensures AlwaysOver(size, limit, largest)
  {
    forall v: Usage | Addable(v, largest) && v.messages <= limit.messages && v.bytes <= limit.bytes
      ensures Exceeded(v, size, limit)
    {
      if limit.messages > 0 && limit.bytes > 0 { SoundExact(limit, largest, v, size); }
    }
  }

  // --------------------------------------------------------------- the class

  class DirectAdmissionLimiter {
    const policy: Policy
    var usage: map<Bytes, Usage>

    constructor (p: Policy)
      requires |p.limits| == 4
      ensures policy == if p.window <= 0 then DEFAULT_POLICY else p
      ensures policy.window > 0 && |policy.limits| == 4 && usage == map[]
    {
      policy := if p.window <= 0 then DEFAULT_POLICY else p;
      usage := map[];
    }

    /** Two passes over the four keys: the first only looks, the second only charges. */
    method Admit(c: Call, now: int) returns (verdict: Verdict)
      requires |policy.limits| == 4 && c.size <= MAX_SIZE
      modifies this
      ensures (usage, verdict) == Decide(policy, old(usage), c, now)
    {
      if !ValidCall(c) { return Invalid; }
      var keys := Keys(c);
      var current := [];
      for index := 0 to 4
        invariant |current| == index && usage == old(usage)
        invariant forall j :: 0 <= j < index ==> current[j] == Current(At(usage, keys[j]), now, policy.window)
        invariant forall j :: 0 <= j < index ==> !Blocks(policy, usage, c, now, j)
      {
        var u := Current(At(usage, keys[index]), now, policy.window);
        current := current + [u];
        if Exceeded(u, c.size, policy.limits[index]) {
          assert FirstBlock(policy, usage, c, now, 0) == index;
          return Limited(RetryAfter(policy, u, now));
        }
      }
      for index := 0 to 4
        invariant usage == Charge(policy, old(usage), c, now, index)
      {
        usage := usage[keys[index] := Bump(current[index], c.size)];
      }
      return Admitted;
    }
  }
}
