/** Estimating the gas limit of a contract call or deployment: double a limit until the trial
    run is no longer out of gas, then bisect. Gas is a signed 64-bit number. */
module GasSearch {
  import opened Framing

  datatype Status = Success | OutOfGas | Failed

  /** A trial run: how it ended and how much gas it used. */
  datatype Trial = Trial(status: Status, used: int)

  datatype Estimate = Estimate(status: Status, limit: int, suggested: int)

  const MAX_INT := 0x7fff_ffff_ffff_ffff
  const HALF := 0x4000_0000_0000_0000

  function Clip(x: int, max: int): int {
    if x > max then max else x
  }

  /** A fifth more than was used, but no less than the limit that worked and no more than the
      maximum. */
  function Suggest(t: Trial, limit: int, max: int): int {
    if t.status != Success then 0
    else
      var padded := Signed64(t.used + t.used / 5);
      Clip(if padded < limit then limit else padded, max)
  }

  function Report(t: Trial, limit: int, max: int): Estimate {
    Estimate(t.status, limit, Suggest(t, limit, max))
  }

  // ------------------------------------------------------------- the probes

  /** The first probe after the starting limit ran out. */
  function FirstProbe(start: int, base: int, max: int): int {
    var high := Signed64(start * 2);
    Clip(if high < base then base else high, max)
  }

  function NextProbe(high: int, max: int): int {
    Clip(Signed64(high * 2), max)
  }

  /** The n-th probe, as long as all before it ran out of gas. */
  function Probe(start: int, base: int, max: int, n: nat): int {
    if n == 0 then FirstProbe(start, base, max) else NextProbe(Probe(start, base, max, n - 1), max)
  }

  predicate ReachesMax(start: int, base: int, max: int, n: nat) {
    Probe(start, base, max, n) >= max
  }

  ghost predicate Ends(start: int, base: int, max: int) {
    exists n :: ReachesMax(start, base, max, n)
  }

  /** Doubling reaches the maximum from every starting limit and base exactly for maxima up to
      2^62. */
  lemma DoublingEndsIff(max: int)
    requires 0 < max <= MAX_INT
    ensures (forall start, base :: 1 <= start <= max && 1 <= base <= MAX_INT ==> Ends(start, base, max)) <==>
      max <= HALF
  {
    if max <= HALF {
      forall start, base | 1 <= start <= max && 1 <= base <= MAX_INT ensures Ends(start, base, max) {
        FirstProbeInRange(start, base, max);
        var _ := ReachFrom(start, base, max, 0);
      }
    } else {
      forall n ensures !ReachesMax(HALF, 1, max, n) { StuckProbe(max, n); }
      assert !Ends(HALF, 1, max);
    }
  }

  lemma FirstProbeInRange(start: int, base: int, max: int)
    requires 1 <= start <= max <= HALF && 1 <= base <= MAX_INT
    ensures 1 <= FirstProbe(start, base, max) <= max
    ensures start < max ==> start < FirstProbe(start, base, max)
  {
  }

  lemma NextProbeGrows(high: int, max: int)
    requires 1 <= high < max <= HALF
    ensures high < NextProbe(high, max) <= max
  {
  }

  lemma {:induction false} ReachFrom(start: int, base: int, max: int, n: nat) returns (m: nat)
    requires 1 <= start <= max <= HALF && 1 <= base <= MAX_INT && 1 <= Probe(start, base, max, n) <= max
    ensures ReachesMax(start, base, max, m)
    decreases max - Probe(start, base, max, n)
  {
    if Probe(start, base, max, n) >= max {
      m := n;
    } else {
      NextProbeGrows(Probe(start, base, max, n), max);
      m := ReachFrom(start, base, max, n + 1);
    }
  }

  function Pow2(n: nat): int {
    if n == 0 then 1 else 2 * Pow2(n - 1)
  }

  /** One step of the stuck probes: below 2^62 they double, then they wrap, then they stay. */
  lemma StuckStep(max: int, high: int)
    requires HALF < max <= MAX_INT
    ensures 0 < high < HALF ==> NextProbe(high, max) == Clip(2 * high, max)
    ensures NextProbe(HALF, max) == -2 * HALF && NextProbe(-2 * HALF, max) == 0 && NextProbe(0, max) == 0
  {
  }

  /** From 2^62 with a base of 1 and a maximum beyond 2^62, the probes go 1, 2, 4, ..., 2^62,
      -2^63, 0, 0, 0 and so on. */
  lemma {:induction false} StuckProbe(max: int, n: nat)
    requires HALF < max <= MAX_INT
    ensures Probe(HALF, 1, max, n) == if n <= 62 then Pow2(n) else if n == 63 then -2 * HALF else 0
    ensures Probe(HALF, 1, max, n) < max
  {
    Pow2Of62();
    if n > 0 {
      StuckProbe(max, n - 1);
      StuckStep(max, Probe(HALF, 1, max, n - 1));
    }
    if n <= 62 { Pow2Monotone(n, 62); }
    if 0 < n <= 62 { Pow2Monotone(n - 1, 61); Pow2Monotone(61, 62); }
  }

  lemma {:induction false} Pow2Monotone(m: nat, n: nat)
    requires m <= n
    ensures 1 <= Pow2(m) <= Pow2(n)
  {
    if m < n { Pow2Monotone(m, n - 1); } else if m > 0 { Pow2Monotone(m - 1, n - 1); }
  }

  lemma Pow2Of62()
    ensures Pow2(62) == HALF
  {
    assert Pow2(8) == 0x100;
    Pow2Add(8, 8);
    Pow2Add(16, 16);
    Pow2Add(32, 16);
    Pow2Add(48, 8);
    assert Pow2(6) == 0x40;
    Pow2Add(56, 6);
  }

  lemma {:induction false} Pow2Add(m: nat, n: nat)
    ensures Pow2(m + n) == Pow2(m) * Pow2(n)
  {
    if n > 0 {
      Pow2Add(m, n - 1);
      assert m + n - 1 == m + (n - 1);
      assert Pow2(m + n) == 2 * (Pow2(m) * Pow2(n - 1)) == Pow2(m) * (2 * Pow2(n - 1));
    } else {
      assert Pow2(m) * 1 == Pow2(m);
    }
  }

  // ------------------------------------------------------------- the search

  function Start(requested: int, base: int, max: int): int {
    Clip(if requested <= 0 then base else requested, max)
  }

  /** What the search vouches for, whatever trial runs do: the outcome it reports is that of the
      limit it reports, the limit is in range, running out of gas is reported only at the
      maximum, and a limit above the start that succeeds is one above a limit that runs out
      (or the maximum was the start and ran out). */
  ghost predicate Vouched(try: int -> Trial, start: int, max: int, e: Estimate) {
    && 1 <= e.limit <= max && e.status == try(e.limit).status
    && e.suggested == Suggest(try(e.limit), e.limit, max)
    && (e.status == OutOfGas ==> e.limit == max)
    && (try(start).status != OutOfGas ==> e.limit == start)
    && (e.status == Success ==>
      || e.limit == start
      || (try(e.limit - 1).status == OutOfGas && start < e.limit)
      || (start == max && try(max).status == OutOfGas))
    && (e.status == Failed ==> e.limit >= start || (start == max && try(max).status == OutOfGas))
  }

  /** Where the doubling starts above the start: the start can be doubled, or the base is larger,
      or there is nothing above the start. */
  predicate Regular(start: int, base: int, max: int) {
    start < HALF || start < base || start == max
  }

  /** What is left of that from other starts, where doubling begins again at the base. */
  ghost predicate Probed(try: int -> Trial, start: int, max: int, e: Estimate) {
    && 1 <= e.limit <= max && e.status == try(e.limit).status
    && e.suggested == Suggest(try(e.limit), e.limit, max)
    && (e.status == OutOfGas ==> e.limit == max)
    && (try(start).status != OutOfGas ==> e.limit == start)
    && (e.status == Success ==>
      e.limit == start || try(e.limit - 1).status == OutOfGas || (e.limit <= start && try(start).status == OutOfGas))
  }

  /** Trial runs of a call that needs exactly `need` gas: they run out below, and end the same
      way from there on. */
  ghost predicate Needs(try: int -> Trial, max: int, need: int, status: Status) {
    && status != OutOfGas
    && (forall g :: 1 <= g < need && g <= max ==> try(g).status == OutOfGas)
    && (forall g :: need <= g <= max && 1 <= g ==> try(g).status == status)
  }

  /** The least limit at or above the start with which the call succeeds; a call that fails is
      reported failing at a limit with enough gas; and running out is reported exactly if the
      maximum is not enough. */
  ghost predicate LeastFound(start: int, max: int, need: int, status: Status, e: Estimate) {
    && (e.status == OutOfGas <==> need > max)
    && (need <= max ==> e.status == status && e.limit >= need && e.limit >= start)
    && (need <= max && status == Success ==> e.limit == if need <= start then start else need)
  }

  /** For a call with one need, that is enough. */
  lemma ProbedIsLeast(try: int -> Trial, start: int, max: int, need: int, status: Status, e: Estimate)
    requires 1 <= start <= max <= MAX_INT && Needs(try, max, need, status) && Probed(try, start, max, e)
    ensures LeastFound(start, max, need, status, e)
  {
  }

  /** The suggestion works too. It is the padded usage whenever that lies between the limit found
      and the maximum; padding beyond 64 bits is none. */
  lemma SuggestionWorks(try: int -> Trial, start: int, max: int, need: int, e: Estimate)
    requires 1 <= start <= max <= MAX_INT && Needs(try, max, need, Success) && Probed(try, start, max, e) && need <= max
    requires 0 <= try(e.limit).used <= e.limit
    ensures e.limit <= e.suggested <= max && try(e.suggested).status == Success
    ensures var padded := try(e.limit).used + try(e.limit).used / 5;
      e.suggested == if padded < e.limit || padded > MAX_INT then e.limit else if padded > max then max else padded
  {
    ProbedIsLeast(try, start, max, need, Success, e);
    PaddedWraps(try(e.limit).used);
  }

  lemma PaddedWraps(used: int)
    requires 0 <= used <= MAX_INT
    ensures var padded := used + used / 5;
      if padded <= MAX_INT then Signed64(padded) == padded else Signed64(padded) < 0
  {
  }

  /** Nothing is suggested for a call that does not succeed. */
  lemma NothingSuggested(try: int -> Trial, start: int, max: int, e: Estimate)
    requires Probed(try, start, max, e) && e.status != Success
    ensures e.suggested == 0
  {
  }

  /** The search begins at the limit asked for, or at the base if none is, and never above the
      maximum. */
  lemma StartExact(requested: int, base: int, max: int)
    requires 1 <= base && 1 <= max
    ensures 1 <= requested <= max ==> Start(requested, base, max) == requested
    ensures requested <= 0 && base <= max ==> Start(requested, base, max) == base
    ensures requested > max || (requested <= 0 && base > max) ==> Start(requested, base, max) == max
  {
  }

  // ----------------------------------------------------------- when it ends

  /** The n-th probe is the first that does not run out below the maximum. */
  ghost predicate StopsAt(try: int -> Trial, start: int, base: int, max: int, n: nat) {
    && (try(Probe(start, base, max, n)).status != OutOfGas || Probe(start, base, max, n) >= max)
    && forall k: nat :: k < n ==> Goes(try, start, base, max, k)
  }

  /** The k-th probe runs out, is below the maximum, and is small enough to double. */
  ghost predicate Goes(try: int -> Trial, start: int, base: int, max: int, k: nat) {
    var high := Probe(start, base, max, k);
    try(high).status == OutOfGas && high < max && high < HALF
  }

  /** The search ends without wrapping around: it has nothing to double, or it stops before it has
      to double a probe of 2^62 or more. */
  ghost predicate Settles(try: int -> Trial, start: int, base: int, max: int) {
    try(start).status != OutOfGas || exists n :: StopsAt(try, start, base, max, n)
  }

  /** It does if the call needs at most 2^62, whatever the maximum. */
  lemma SmallNeedSettles(try: int -> Trial, start: int, base: int, max: int, need: int, status: Status)
    requires 1 <= start <= max <= MAX_INT && 1 <= base <= MAX_INT && Needs(try, max, need, status) && need <= HALF
    ensures Settles(try, start, base, max)
  {
    if try(start).status == OutOfGas {
      assert start < need;
      FirstBelow(start, base, max);
      var _ := StopFrom(try, start, base, max, need, status, 0);
    }
  }

  lemma {:induction false} StopFrom(try: int -> Trial, start: int, base: int, max: int, need: int, status: Status,
                                    n: nat)
    returns (m: nat)
    requires 1 <= start <= max <= MAX_INT && 1 <= base <= MAX_INT && need <= HALF && Needs(try, max, need, status)
    requires 1 <= Probe(start, base, max, n) <= max && forall k: nat :: k < n ==> Goes(try, start, base, max, k)
    ensures StopsAt(try, start, base, max, m)
    decreases max - Probe(start, base, max, n)
  {
    var high := Probe(start, base, max, n);
    if try(high).status != OutOfGas || high >= max {
      m := n;
    } else {
      assert high < need;
      DoublesBelow(high, max);
      m := StopFrom(try, start, base, max, need, status, n + 1);
    }
  }

  lemma DoublesBelow(high: int, max: int)
    requires 1 <= high < max <= MAX_INT && high < HALF
    ensures high < NextProbe(high, max) <= max
  {
  }

  lemma DoubledStart(start: int)
    requires 1 <= start <= MAX_INT
    ensures Signed64(start * 2) == if start < HALF then 2 * start else 2 * start - TWO64
  {
    assert 0 < 2 * start < TWO64;
  }

  /** A start of 2^62 or more doubles to a negative number, and the base is probed instead. */
  lemma FirstBelow(start: int, base: int, max: int)
    requires 1 <= start <= max <= MAX_INT && 1 <= base <= MAX_INT
    ensures 1 <= FirstProbe(start, base, max) <= max
    ensures start < max && Regular(start, base, max) ==> start < FirstProbe(start, base, max)
  {
    DoubledStart(start);
  }

  /** Up to 2^62 the probes stop in any case. */
  lemma SmallMaxStops(try: int -> Trial, start: int, base: int, max: int) returns (n: nat)
    requires 1 <= start <= max <= HALF && 1 <= base <= MAX_INT
    ensures StopsAt(try, start, base, max, n)
  {
    FirstProbeInRange(start, base, max);
    n := SmallStopFrom(try, start, base, max, 0);
  }

  lemma {:induction false} SmallStopFrom(try: int -> Trial, start: int, base: int, max: int, n: nat) returns (m: nat)
    requires 1 <= start <= max <= HALF && 1 <= base <= MAX_INT && 1 <= Probe(start, base, max, n) <= max
    requires forall k: nat :: k < n ==> Goes(try, start, base, max, k)
    ensures StopsAt(try, start, base, max, m)
    decreases max - Probe(start, base, max, n)
  {
    var high := Probe(start, base, max, n);
    if try(high).status != OutOfGas || high >= max {
      m := n;
    } else {
      NextProbeGrows(high, max);
      m := SmallStopFrom(try, start, base, max, n + 1);
    }
  }

  /** The estimate of a call or a deployment; they differ in the default base. Any maximum will
      do for which the doubling settles. */
  method EstimateGas(try: int -> Trial, requested: int, baseGas: int, maxGas: int, defaultBase: int, defaultMax: int)
    returns (e: Estimate)
    requires requested <= MAX_INT && baseGas <= MAX_INT && maxGas <= MAX_INT
    requires 1 <= defaultBase <= MAX_INT && 1 <= defaultMax <= MAX_INT
    requires var base := if baseGas <= 0 then defaultBase else baseGas;
      var max := if maxGas <= 0 then defaultMax else maxGas;
      Settles(try, Start(requested, base, max), base, max)
    ensures var base := if baseGas <= 0 then defaultBase else baseGas;
      var max := if maxGas <= 0 then defaultMax else maxGas;
      var start := Start(requested, base, max);
      && 1 <= start <= max && Probed(try, start, max, e) && (Regular(start, base, max) ==> Vouched(try, start, max, e))
      && forall need, status :: Needs(try, max, need, status) ==> LeastFound(start, max, need, status, e)
  {
    var base := if baseGas <= 0 then defaultBase else baseGas;
    var max := if maxGas <= 0 then defaultMax else maxGas;
    var start := if requested <= 0 then base else requested;
    if start > max { start := max; }
    var first := try(start);
    if first.status != OutOfGas { return Report(first, start, max); }
    ghost var n :| StopsAt(try, start, base, max, n);
    var low, high := Double(try, start, base, max, n);
    if try(high).status != Success {
      e := Report(try(high), high, max);
    } else {
      e := Bisect(try, start, base, max, low, high);
    }
    forall need, status | Needs(try, max, need, status) ensures LeastFound(start, max, need, status, e) {
      ProbedIsLeast(try, start, max, need, status, e);
    }
  }

  /** A limit that runs out and a larger one; or the base, not above a start that runs out. */
  predicate Bracket(try: int -> Trial, start: int, base: int, max: int, low: int, high: int) {
    && 1 <= low && 1 <= high <= max
    && ((low < high && try(low).status == OutOfGas) || (high <= start == low))
    && (start < max && Regular(start, base, max) ==> start <= low < high)
  }

  /** Double until a trial succeeds, fails, or runs out at the maximum; `n` is how often. */
  method Double(try: int -> Trial, start: int, base: int, max: int, ghost n: nat) returns (low: int, high: int)
    requires 1 <= start <= max <= MAX_INT && 1 <= base <= MAX_INT && try(start).status == OutOfGas
    requires StopsAt(try, start, base, max, n)
    ensures Bracket(try, start, base, max, low, high) && (try(high).status == OutOfGas ==> high == max)
  {
    low := start;
    high := FirstProbe(start, base, max);
    FirstBelow(start, base, max);
    ghost var i := 0;
    while try(high).status == OutOfGas && high < max
      invariant i <= n && high == Probe(start, base, max, i)
      invariant Bracket(try, start, base, max, low, high)
      decreases n - i
    {
      assert i < n && Goes(try, start, base, max, i);
      DoublesBelow(high, max);
      low := high;
      high := NextProbe(high, max);
      i := i + 1;
    }
  }

  /** Close in on the least limit between one that runs out and one that succeeds. */
  method Bisect(try: int -> Trial, start: int, base: int, max: int, lo: int, hi: int) returns (e: Estimate)
    requires 1 <= start <= max <= MAX_INT && try(start).status == OutOfGas && try(hi).status == Success
    requires Bracket(try, start, base, max, lo, hi)
    ensures Probed(try, start, max, e) && (Regular(start, base, max) ==> Vouched(try, start, max, e))
  {
    var low, success := lo, hi;
    while low + 1 < success
      invariant Bracket(try, start, base, max, low, success) && try(success).status == Success
      decreases success - low
    {
      var mid := low + (success - low) / 2;
      var current := try(mid);
      match current.status
      case Success => success := mid;
      case OutOfGas => low := mid;
      case Failed => return Report(current, mid, max);
    }
    return Report(try(success), success, max);
  }
}
