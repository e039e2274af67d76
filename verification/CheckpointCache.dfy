/** Answers to filter-header checkpoint requests: the checkpoint blocks below a stop block, and
    the cache of their headers, which outlives chain reorganisations. */
module CheckpointCache {
  import opened Framing

  type Hash = Bytes
  type Header = Bytes

  // ------------------------------------------------------ checkpoint blocks

  /** The block index: every known block with its height, and the parent of all but the first. */
  datatype Tree = Tree(parent: map<Hash, Hash>, height: map<Hash, nat>)

  ghost predicate TreeOk(t: Tree) {
    && (forall h :: h in t.height && t.height[h] > 0 ==>
          h in t.parent && t.parent[h] in t.height && t.height[t.parent[h]] == t.height[h] - 1)
  }

  function Ancestor(t: Tree, h: Hash, n: nat): (a: Hash)
    requires TreeOk(t) && h in t.height && n <= t.height[h]
    ensures a in t.height && t.height[a] == n
    decreases if h in t.height then t.height[h] else 0
  {
    if n == t.height[h] then h else Ancestor(t, t.parent[h], n)
  }

  lemma {:induction false} AncestorTwice(t: Tree, h: Hash, m: nat, n: nat)
    requires TreeOk(t) && h in t.height && n <= m <= t.height[h]
    ensures Ancestor(t, Ancestor(t, h, m), n) == Ancestor(t, h, n)
    decreases t.height[h]
  {
    if m < t.height[h] { AncestorTwice(t, t.parent[h], m, n); }
  }

  /** The best chain, as blocks by height. */
  ghost predicate BestOk(t: Tree, best: seq<Hash>) {
    forall i :: 0 <= i < |best| ==>
      best[i] in t.height && t.height[best[i]] == i &&
        (i > 0 ==> best[i] in t.parent && t.parent[best[i]] == best[i - 1])
  }

  predicate OnBest(t: Tree, best: seq<Hash>, h: Hash)
    requires h in t.height
  {
    t.height[h] < |best| && best[t.height[h]] == h
  }

  lemma {:induction false} BestAncestor(t: Tree, best: seq<Hash>, k: nat, n: nat)
    requires TreeOk(t) && BestOk(t, best) && n <= k < |best|
    ensures best[n] == Ancestor(t, best[k], n)
    decreases k
  {
    if n < k {
      assert t.parent[best[k]] == best[k - 1];
      BestAncestor(t, best, k - 1, n);
    }
  }

  /** The height of the k-th checkpoint. */
  function Mark(interval: nat, k: nat): nat {
    if k == 0 then 0 else Mark(interval, k - 1) + interval
  }

  lemma {:induction false} MarkIsMultiple(interval: nat, k: nat)
    ensures Mark(interval, k) == k * interval
  {
    if k > 0 {
      MarkIsMultiple(interval, k - 1);
      assert k * interval == (k - 1) * interval + interval;
    }
  }

  lemma {:induction false} MarkMonotone(interval: nat, j: nat, k: nat)
    requires j <= k
    ensures Mark(interval, j) <= Mark(interval, k)
  {
    if j < k { MarkMonotone(interval, j, k - 1); }
  }

  lemma MarksBelow(interval: nat, height: nat)
    requires interval > 0
    ensures Mark(interval, height / interval) <= height
  {
    MarkIsMultiple(interval, height / interval);
  }

  /** The checkpoint below a checkpoint. */
  function Previous(t: Tree, interval: nat, h: Hash): Hash
    requires TreeOk(t) && h in t.height
  {
    if t.height[h] < interval then h else Ancestor(t, h, t.height[h] - interval)
  }

  ghost predicate IsCheckpoint(t: Tree, stop: Hash, interval: nat, k: nat, h: Hash)
    requires TreeOk(t) && stop in t.height
  {
    Mark(interval, k) <= t.height[stop] && h == Ancestor(t, stop, Mark(interval, k))
  }

  /** The ancestors of a block at the positive multiples of the interval, lowest first. */
  ghost predicate AreCheckpoints(t: Tree, stop: Hash, interval: nat, hashes: seq<Hash>)
    requires TreeOk(t) && stop in t.height && interval > 0
  {
    && |hashes| == t.height[stop] / interval
    && forall k :: 0 <= k < |hashes| ==> IsCheckpoint(t, stop, interval, k + 1, hashes[k])
  }

  /** One step down: by the best chain if the block is on it, by its parents otherwise. */
  method Descend(t: Tree, best: seq<Hash>, node: Hash, height: nat) returns (below: Hash)
    requires TreeOk(t) && BestOk(t, best) && node in t.height && height <= t.height[node]
    ensures below == Ancestor(t, node, height)
  {
    if OnBest(t, best, node) {
      BestAncestor(t, best, t.height[node], height);
      return best[height];
    }
    return Ancestor(t, node, height);
  }

  /** The checkpoints at or below a stop block: its ancestors at the positive multiples of the
      interval, found through the best chain wherever that is possible. */
  method IntervalBlockHashes(t: Tree, best: seq<Hash>, stop: Hash, interval: nat) returns (hashes: seq<Hash>)
    requires TreeOk(t) && BestOk(t, best) && stop in t.height && interval > 0
    ensures AreCheckpoints(t, stop, interval, hashes)
  {
    var node := stop;
    var index := t.height[stop] / interval;
    hashes := seq(index, i => NO_HASH);
    MarksBelow(interval, t.height[stop]);
    while index > 0
      invariant 0 <= index <= |hashes| == t.height[stop] / interval
      invariant node in t.height && Mark(interval, index) <= t.height[node] <= t.height[stop]
      invariant node == Ancestor(t, stop, t.height[node])
      invariant forall k :: index <= k < |hashes| ==> IsCheckpoint(t, stop, interval, k + 1, hashes[k])
    {
      var height := index * interval;
      assert height == Mark(interval, index) by { MarkIsMultiple(interval, index); }
      AncestorTwice(t, stop, t.height[node], height);
      node := Descend(t, best, node, height);
      assert IsCheckpoint(t, stop, interval, index, node);
      hashes := hashes[index - 1 := node];
      index := index - 1;
    }
  }

  /** Each checkpoint determines the one below it. */
  lemma CheckpointsChain(t: Tree, stop: Hash, interval: nat, k: nat, h: Hash, g: Hash)
    requires TreeOk(t) && stop in t.height && interval > 0
    requires IsCheckpoint(t, stop, interval, k + 1, h) && IsCheckpoint(t, stop, interval, k, g)
    ensures Previous(t, interval, h) == g
  {
    AncestorTwice(t, stop, Mark(interval, k + 1), Mark(interval, k));
  }

  /** The block index only grows: a block keeps its height and its parent. */
  ghost predicate Extends(t: Tree, u: Tree) {
    forall h :: h in t.height ==>
      && h in u.height && u.height[h] == t.height[h]
      && (t.height[h] > 0 && h in t.parent ==> h in u.parent && u.parent[h] == t.parent[h])
  }

  lemma {:induction false} AncestorStable(t: Tree, u: Tree, h: Hash, n: nat)
    requires TreeOk(t) && TreeOk(u) && Extends(t, u) && h in t.height && n <= t.height[h]
    ensures Ancestor(u, h, n) == Ancestor(t, h, n)
    decreases t.height[h]
  {
    if n < t.height[h] { AncestorStable(t, u, t.parent[h], n); }
  }

  /** The checkpoint below a checkpoint, as a function of blocks. */
  ghost function PreviousIn(u: Tree, interval: nat): Hash -> Hash
    requires TreeOk(u)
  {
    h => if h in u.height then Previous(u, interval, h) else h
  }

  /** Whatever tree a stop block was asked for in, its checkpoints follow each other in every
      later tree. */
  lemma CheckpointsFollow(t: Tree, u: Tree, stop: Hash, interval: nat, hashes: seq<Hash>, k: nat)
    requires TreeOk(t) && TreeOk(u) && Extends(t, u) && stop in t.height && interval > 0
    requires AreCheckpoints(t, stop, interval, hashes) && 0 < k < |hashes|
    ensures PreviousIn(u, interval)(hashes[k]) == hashes[k - 1]
  {
    assert IsCheckpoint(t, stop, interval, k + 1, hashes[k]) && IsCheckpoint(t, stop, interval, k, hashes[k - 1]);
    CheckpointsChain(t, stop, interval, k, hashes[k], hashes[k - 1]);
    AncestorStable(t, u, hashes[k], Mark(interval, k));
  }

  // -------------------------------------------------------------- the cache

  datatype Entry = Entry(hash: Hash, header: Header)

  /** A slice: the cache proper is the first `len` slots of its backing array. */
  datatype Cache = Cache(slots: seq<Entry>, len: nat)

  const NO_HASH: Hash :=
    [0, 0, 0, 0, 0, 0, 0, 0, 0, 0, 0, 0, 0, 0, 0, 0, 0, 0, 0, 0, 0, 0, 0, 0, 0, 0, 0, 0, 0, 0, 0, 0]
  const ZERO: Entry := Entry(NO_HASH, NO_HASH)

  /** One request: the checkpoints asked for, and what the filter index can answer now. */
  datatype Request = Request(hashes: seq<Hash>, known: set<Hash>, failing: bool, capacity: nat)

  /** How many leading entries can be served: up to the last one that names its checkpoint. */
  function Fork(local: seq<Entry>, hashes: seq<Hash>, f: nat): (r: nat)
    requires f <= |hashes| <= |local|
    ensures r <= f && (r > 0 ==> local[r - 1].hash == hashes[r - 1])
    ensures forall k :: r <= k < f ==> local[k].hash != hashes[k]
  {
    if f == 0 || local[f - 1].hash == hashes[f - 1] then f else Fork(local, hashes, f - 1)
  }

  /** The first checkpoint from `k` on whose header the index lacks. */
  function Missing(hashes: seq<Hash>, known: set<Hash>, k: nat): (r: nat)
    requires k <= |hashes|
    ensures k <= r <= |hashes| && (r < |hashes| ==> hashes[r] !in known)
    ensures forall j :: k <= j < r ==> hashes[j] in known
    decreases |hashes| - k
  {
    if k == |hashes| || hashes[k] !in known then k else Missing(hashes, known, k + 1)
  }

  function Headers(header: Hash -> Header, hashes: seq<Hash>): (r: seq<Header>)
    ensures |r| == |hashes| && forall k :: 0 <= k < |r| ==> r[k] == header(hashes[k])
  {
    seq(|hashes|, k requires 0 <= k < |hashes| => header(hashes[k]))
  }

  /** Entries `from` to `to` rewritten with the checkpoints asked for. */
  function Fill(header: Hash -> Header, slots: seq<Entry>, hashes: seq<Hash>, from: nat, to: nat): (r: seq<Entry>)
    requires from <= to <= |hashes| <= |slots|
    ensures |r| == |slots|
    ensures forall k :: from <= k < to ==> r[k] == Entry(hashes[k], header(hashes[k]))
    ensures forall k :: 0 <= k < from || to <= k < |r| ==> r[k] == slots[k]
  {
    seq(|slots|, k requires 0 <= k < |slots| =>
      if from <= k < to then Entry(hashes[k], header(hashes[k])) else slots[k])
  }

  lemma FillStep(header: Hash -> Header, slots: seq<Entry>, hashes: seq<Hash>, from: nat, m: nat)
    requires from <= m < |hashes| <= |slots|
    ensures Fill(header, slots, hashes, from, m + 1) ==
      Fill(header, slots, hashes, from, m)[m := Entry(hashes[m], header(hashes[m]))]
  {
  }

  lemma HeadersStep(header: Hash -> Header, hashes: seq<Hash>, from: nat, m: nat)
    requires from <= m < |hashes|
    ensures Headers(header, hashes[from..m + 1]) == Headers(header, hashes[from..m]) + [header(hashes[m])]
  {
  }

  /** The slice a request works on. Growing uses the spare capacity of the backing array if
      there is enough, and moves to a new array otherwise. */
  function Slots(c: Cache, r: Request): (s: seq<Entry>)
    requires c.len <= |c.slots|
    ensures |s| >= |r.hashes| && |s| >= c.len && s[..c.len] == c.slots[..c.len]
    ensures forall k :: c.len <= k < |r.hashes| ==> s[k] == ZERO
  {
    if |r.hashes| <= c.len then c.slots
    else if |r.hashes| <= |c.slots| then
      c.slots[..c.len] + seq(|r.hashes| - c.len, i => ZERO) + c.slots[|r.hashes|..]
    else
      c.slots[..c.len] + seq((if r.capacity < |r.hashes| then |r.hashes| else r.capacity) - c.len, i => ZERO)
  }

  predicate Grows(c: Cache, r: Request) { |r.hashes| > c.len }

  predicate InPlace(c: Cache, r: Request) { c.len < |r.hashes| <= |c.slots| }

  /** Where serving from a slice starts to need the index, and where the index gives out. */
  function ForkIn(slots: seq<Entry>, r: Request): (f: nat)
    requires |r.hashes| <= |slots|
    ensures f <= |r.hashes|
  {
    Fork(slots, r.hashes, |r.hashes|)
  }

  function MissingIn(slots: seq<Entry>, r: Request): (m: nat)
    requires |r.hashes| <= |slots|
    ensures ForkIn(slots, r) <= m <= |r.hashes|
  {
    if r.failing then ForkIn(slots, r) else Missing(r.hashes, r.known, ForkIn(slots, r))
  }

  predicate Complete(slots: seq<Entry>, r: Request)
    requires |r.hashes| <= |slots|
  {
    !r.failing && MissingIn(slots, r) == |r.hashes|
  }

  function Rewritten(header: Hash -> Header, slots: seq<Entry>, r: Request): seq<Entry>
    requires |r.hashes| <= |slots|
  {
    Fill(header, slots, r.hashes, ForkIn(slots, r), MissingIn(slots, r))
  }

  function Reply(header: Hash -> Header, slots: seq<Entry>, r: Request): seq<Header>
    requires |r.hashes| <= |slots|
  {
    Served(slots[..ForkIn(slots, r)]) + Headers(header, r.hashes[ForkIn(slots, r)..])
  }

  function Served(entries: seq<Entry>): (s: seq<Header>)
    ensures |s| == |entries| && forall k :: 0 <= k < |s| ==> s[k] == entries[k].header
  {
    seq(|entries|, k requires 0 <= k < |entries| => entries[k].header)
  }

  /** The slice is kept only if it grew and every header was found, but rewriting it in place
      shows in the cache at once. */
  function Serve(header: Hash -> Header, c: Cache, r: Request): (Cache, Option<seq<Header>>)
    requires c.len <= |c.slots|
  {
    var slots := Slots(c, r);
    if Complete(slots, r) then
      (if Grows(c, r) then Cache(Rewritten(header, slots, r), |r.hashes|) else c, Some(Reply(header, slots, r)))
    else
      (if InPlace(c, r) then Cache(Rewritten(header, slots, r), c.len) else c, None)
  }

  function ForkOf(c: Cache, r: Request): nat
    requires c.len <= |c.slots|
  {
    ForkIn(Slots(c, r), r)
  }

  function MissingOf(c: Cache, r: Request): nat
    requires c.len <= |c.slots|
  {
    MissingIn(Slots(c, r), r)
  }

  predicate Answered(c: Cache, r: Request)
    requires c.len <= |c.slots|
  {
    Complete(Slots(c, r), r)
  }

  // ------------------------------------------------------------- invariants

  ghost predicate Chain(prev: Hash -> Hash, hashes: seq<Hash>) {
    && (forall k :: 0 <= k < |hashes| ==> hashes[k] != NO_HASH)
    && (forall k :: 0 < k < |hashes| ==> prev(hashes[k]) == hashes[k - 1])
  }

  function HashesOf(entries: seq<Entry>): (s: seq<Hash>)
    ensures |s| == |entries| && forall k :: 0 <= k < |s| ==> s[k] == entries[k].hash
  {
    seq(|entries|, k requires 0 <= k < |entries| => entries[k].hash)
  }

  /** A cache that can be trusted: the checkpoints of one chain, with their headers. */
  ghost predicate CacheOk(header: Hash -> Header, prev: Hash -> Hash, c: Cache) {
    && c.len <= |c.slots|
    && Chain(prev, HashesOf(c.slots[..c.len]))
    && forall k :: 0 <= k < c.len ==> c.slots[k].header == header(c.slots[k].hash)
  }

  /** Two chains that agree at one checkpoint agree below it. */
  lemma {:induction false} ChainsAgree(prev: Hash -> Hash, a: seq<Hash>, b: seq<Hash>, f: nat, k: nat)
    requires Chain(prev, a) && Chain(prev, b) && k < f <= |a| && f <= |b| && a[f - 1] == b[f - 1]
    ensures a[k] == b[k]
    decreases f
  {
    if k < f - 1 {
      assert prev(a[f - 1]) == a[f - 2] && prev(b[f - 1]) == b[f - 2];
      ChainsAgree(prev, a, b, f - 1, k);
    }
  }

  /** Every cached entry that is served belongs to the chain that was asked for. */
  lemma ServedAgree(header: Hash -> Header, prev: Hash -> Hash, c: Cache, r: Request, k: nat)
    requires CacheOk(header, prev, c) && Chain(prev, r.hashes) && k < ForkOf(c, r)
    ensures ForkOf(c, r) <= c.len && c.slots[k] == Slots(c, r)[k] == Entry(r.hashes[k], header(r.hashes[k]))
  {
    var f := ForkOf(c, r);
    var slots := Slots(c, r);
    assert slots[f - 1].hash == r.hashes[f - 1] != NO_HASH;
    assert f <= c.len;
    assert forall j :: 0 <= j < c.len ==> slots[j] == slots[..c.len][j] == c.slots[..c.len][j] == c.slots[j];
    ChainsAgree(prev, HashesOf(c.slots[..c.len]), r.hashes, f, k);
  }

  lemma AnsweredAgree(header: Hash -> Header, prev: Hash -> Hash, c: Cache, r: Request, k: nat)
    requires CacheOk(header, prev, c) && Chain(prev, r.hashes) && k < |r.hashes|
    ensures (Served(Slots(c, r)[..ForkOf(c, r)]) + Headers(header, r.hashes[ForkOf(c, r)..]))[k] == header(r.hashes[k])
  {
    if k < ForkOf(c, r) { ServedAgree(header, prev, c, r, k); }
  }

  /** An answer is what the index says of each checkpoint of the requested chain, whatever
      chain the cache was filled from; there is none exactly if the index fails or lacks a
      header beyond what the cache shares with that chain. */
  lemma AnswerIsIndex(header: Hash -> Header, prev: Hash -> Hash, c: Cache, r: Request)
    requires CacheOk(header, prev, c) && Chain(prev, r.hashes)
    ensures Serve(header, c, r).1.None? <==>
      r.failing || exists k :: ForkOf(c, r) <= k < |r.hashes| && r.hashes[k] !in r.known
    ensures Serve(header, c, r).1.Some? ==> Serve(header, c, r).1.value == Headers(header, r.hashes)
  {
    forall k | 0 <= k < |r.hashes|
      ensures (Served(Slots(c, r)[..ForkOf(c, r)]) + Headers(header, r.hashes[ForkOf(c, r)..]))[k] ==
        header(r.hashes[k])
    {
      AnsweredAgree(header, prev, c, r, k);
    }
    assert Serve(header, c, r).1.None? <==> !Answered(c, r);
  }

  /** The one case that spoils a cache: it grows inside its backing array for a chain that has
      left the cached one, and the index gives out after rewriting some of the entries below
      the old length, but not all of them. */
  predicate Spoils(c: Cache, r: Request)
    requires c.len <= |c.slots|
  {
    InPlace(c, r) && ForkOf(c, r) < MissingOf(c, r) < c.len
  }

  /** A request keeps the cache trustworthy exactly if it is not that case. */
  lemma CacheOkIff(header: Hash -> Header, prev: Hash -> Hash, c: Cache, r: Request)
    requires CacheOk(header, prev, c) && Chain(prev, r.hashes)
    ensures CacheOk(header, prev, Serve(header, c, r).0) <==> !Spoils(c, r)
  {
    if Spoils(c, r) {
      SpoiledChainBroken(header, prev, c, r);
    } else if Grows(c, r) && (Answered(c, r) || InPlace(c, r)) {
      GrownCacheOk(header, prev, c, r);
    }
  }

  lemma SpoiledChainBroken(header: Hash -> Header, prev: Hash -> Hash, c: Cache, r: Request)
    requires CacheOk(header, prev, c) && Chain(prev, r.hashes) && Spoils(c, r)
    ensures !CacheOk(header, prev, Serve(header, c, r).0)
  {
    var (d, m) := (Serve(header, c, r).0, MissingOf(c, r));
    var (was, now) := (HashesOf(c.slots[..c.len]), HashesOf(d.slots[..d.len]));
    assert Slots(c, r)[m - 1] == Slots(c, r)[..c.len][m - 1] && Slots(c, r)[m] == Slots(c, r)[..c.len][m];
    assert now[m] == was[m] && prev(was[m]) == was[m - 1];
    assert now[m - 1] == r.hashes[m - 1] != was[m - 1];
  }

  /** Entries copied from one chain make a trustworthy cache. */
  lemma OneChainOk(header: Hash -> Header, prev: Hash -> Hash, c: Cache, hashes: seq<Hash>)
    requires Chain(prev, hashes) && c.len <= |hashes| && c.len <= |c.slots|
    requires forall k :: 0 <= k < c.len ==> c.slots[k] == Entry(hashes[k], header(hashes[k]))
    ensures CacheOk(header, prev, c)
  {
  }

  /** Everything below the first missing header is of the requested chain. */
  lemma FilledAgree(header: Hash -> Header, prev: Hash -> Hash, c: Cache, r: Request, k: nat)
    requires CacheOk(header, prev, c) && Chain(prev, r.hashes) && k < MissingOf(c, r)
    ensures Fill(header, Slots(c, r), r.hashes, ForkOf(c, r), MissingOf(c, r))[k] ==
      Entry(r.hashes[k], header(r.hashes[k]))
  {
    if k < ForkOf(c, r) { ServedAgree(header, prev, c, r, k); }
  }

  lemma GrownCacheOk(header: Hash -> Header, prev: Hash -> Hash, c: Cache, r: Request)
    requires CacheOk(header, prev, c) && Chain(prev, r.hashes) && Grows(c, r) && (Answered(c, r) || InPlace(c, r)) &&
      !Spoils(c, r)
    ensures CacheOk(header, prev, Serve(header, c, r).0)
  {
    var (d, f, m) := (Serve(header, c, r).0, ForkOf(c, r), MissingOf(c, r));
    if f == m < c.len {
      assert d.slots[..c.len] == Slots(c, r)[..c.len] == c.slots[..c.len];
      assert forall k :: 0 <= k < c.len ==> d.slots[k] == d.slots[..c.len][k] == c.slots[..c.len][k] == c.slots[k];
    } else {
      forall k | 0 <= k < d.len ensures d.slots[k] == Entry(r.hashes[k], header(r.hashes[k])) {
        FilledAgree(header, prev, c, r, k);
      }
      OneChainOk(header, prev, d, r.hashes);
    }
  }

  // ------------------------------------------------------------------- runs

  const EMPTY := Cache([], 0)

  /** A run: the caches before and after each request to a new server. */
  ghost predicate Run(header: Hash -> Header, requests: seq<Request>, caches: seq<Cache>) {
    && |caches| == |requests| + 1 && caches[0] == EMPTY
    && forall i :: 0 <= i < |requests| ==>
      caches[i].len <= |caches[i].slots| && caches[i + 1] == Serve(header, caches[i], requests[i]).0
  }

  lemma {:induction false} RunCacheOk(header: Hash -> Header, prev: Hash -> Hash, requests: seq<Request>,
                                      caches: seq<Cache>, n: nat)
    requires Run(header, requests, caches) && n <= |requests|
    requires forall i :: 0 <= i < n ==> Chain(prev, requests[i].hashes)
    requires forall i :: 0 <= i < n ==> !Spoils(caches[i], requests[i])
    ensures CacheOk(header, prev, caches[n])
    decreases n
  {
    if n > 0 {
      RunCacheOk(header, prev, requests, caches, n - 1);
      CacheOkIff(header, prev, caches[n - 1], requests[n - 1]);
    }
  }

  /** The same over any run of requests along chains. */
  lemma RunAnswersIndex(header: Hash -> Header, prev: Hash -> Hash, requests: seq<Request>, caches: seq<Cache>, n: nat)
    requires Run(header, requests, caches) && n < |requests|
    requires forall i :: 0 <= i <= n ==> Chain(prev, requests[i].hashes)
    requires forall i :: 0 <= i < n ==> !Spoils(caches[i], requests[i])
    ensures var answer := Serve(header, caches[n], requests[n]).1;
      answer.None? || answer.value == Headers(header, requests[n].hashes)
  {
    RunCacheOk(header, prev, requests, caches, n);
    AnswerIsIndex(header, prev, caches[n], requests[n]);
  }

  /** A peer asks for the checkpoints of a stop block, in the block tree as it is then. */
  datatype Ask = Ask(tree: Tree, stop: Hash, request: Request)

  /** Every request asks for the checkpoints of its stop block; the tree grows in between, and no
      block has the zero hash. */
  ghost predicate Asks(interval: nat, asks: seq<Ask>) {
    && interval > 0
    && (forall i :: 0 <= i < |asks| ==> AskOk(interval, asks[i]))
    && (forall i, j :: 0 <= i <= j < |asks| ==> Extends(asks[i].tree, asks[j].tree))
  }

  ghost predicate AskOk(interval: nat, a: Ask) {
    && interval > 0 && TreeOk(a.tree) && a.stop in a.tree.height && NO_HASH !in a.tree.height
    && AreCheckpoints(a.tree, a.stop, interval, a.request.hashes)
  }

  function RequestsOf(asks: seq<Ask>): (requests: seq<Request>)
    ensures |requests| == |asks| && forall i :: 0 <= i < |asks| ==> requests[i] == asks[i].request
  {
    seq(|asks|, i requires 0 <= i < |asks| => asks[i].request)
  }

  lemma AskedChain(interval: nat, a: Ask, u: Tree)
    requires AskOk(interval, a) && TreeOk(u) && Extends(a.tree, u)
    ensures Chain(PreviousIn(u, interval), a.request.hashes)
  {
    var hashes := a.request.hashes;
    forall k | 0 <= k < |hashes| ensures hashes[k] != NO_HASH {
      assert IsCheckpoint(a.tree, a.stop, interval, k + 1, hashes[k]);
    }
    forall k | 0 < k < |hashes| ensures PreviousIn(u, interval)(hashes[k]) == hashes[k - 1] {
      CheckpointsFollow(a.tree, u, a.stop, interval, hashes, k);
    }
  }

  lemma AsksChain(interval: nat, asks: seq<Ask>, n: nat, i: nat)
    requires Asks(interval, asks) && i <= n < |asks|
    ensures TreeOk(asks[n].tree) && Chain(PreviousIn(asks[n].tree, interval), RequestsOf(asks)[i].hashes)
  {
    assert AskOk(interval, asks[n]) && AskOk(interval, asks[i]) && Extends(asks[i].tree, asks[n].tree);
    AskedChain(interval, asks[i], asks[n].tree);
  }

  ghost predicate IsHeader(header: Hash -> Header, interval: nat, t: Tree, stop: Hash, k: nat, h: Header)
    requires TreeOk(t) && stop in t.height
  {
    Mark(interval, k) <= t.height[stop] && h == header(Ancestor(t, stop, Mark(interval, k)))
  }

  /** The headers of the ancestors of a block at the positive multiples of the interval. */
  ghost predicate AncestorHeaders(header: Hash -> Header, interval: nat, t: Tree, stop: Hash, headers: seq<Header>)
    requires TreeOk(t) && stop in t.height && interval > 0
  {
    && |headers| == t.height[stop] / interval
    && forall k :: 0 <= k < |headers| ==> IsHeader(header, interval, t, stop, k + 1, headers[k])
  }

  lemma AskedHeaders(header: Hash -> Header, interval: nat, a: Ask)
    requires AskOk(interval, a)
    ensures AncestorHeaders(header, interval, a.tree, a.stop, Headers(header, a.request.hashes))
  {
    var hashes := a.request.hashes;
    var headers := Headers(header, hashes);
    forall k | 0 <= k < |headers| ensures IsHeader(header, interval, a.tree, a.stop, k + 1, headers[k]) {
      assert IsCheckpoint(a.tree, a.stop, interval, k + 1, hashes[k]);
    }
  }

  /** Over any run of requests, while the block tree grows and chains are reorganised: as long as
      no request so far was the spoiling case, every answer holds the header of each ancestor of
      the stop block at a positive multiple of the interval. */
  lemma RunAnswersAncestors(header: Hash -> Header, interval: nat, asks: seq<Ask>, caches: seq<Cache>, n: nat)
    requires Asks(interval, asks) && Run(header, RequestsOf(asks), caches) && n < |asks|
    requires forall i :: 0 <= i < n ==> !Spoils(caches[i], asks[i].request)
    ensures AskOk(interval, asks[n]) && var answer := Serve(header, caches[n], asks[n].request).1;
      answer.None? || AncestorHeaders(header, interval, asks[n].tree, asks[n].stop, answer.value)
  {
    AsksChain(interval, asks, n, n);
    forall i | 0 <= i <= n ensures Chain(PreviousIn(asks[n].tree, interval), RequestsOf(asks)[i].hashes) {
      AsksChain(interval, asks, n, i);
    }
    RunAnswersIndex(header, PreviousIn(asks[n].tree, interval), RequestsOf(asks), caches, n);
    AskedHeaders(header, interval, asks[n]);
  }

  /** A complete index never spoils: it either fails as a whole or has every header. */
  lemma CompleteIndexNeverSpoils(c: Cache, r: Request)
    requires c.len <= |c.slots| && (r.failing || forall k :: 0 <= k < |r.hashes| ==> r.hashes[k] in r.known)
    ensures !Spoils(c, r)
  {
  }

  /** What the spoiling case leads to: asked again for the chain it was filled from, the cache
      answers with the other chain's headers wherever it was rewritten. */
  lemma SpoiledAnswer(header: Hash -> Header, prev: Hash -> Hash, c: Cache, r: Request, again: Request, k: nat)
    requires CacheOk(header, prev, c) && Chain(prev, r.hashes) && Spoils(c, r)
    requires again.hashes == HashesOf(c.slots[..c.len]) && !again.failing && ForkOf(c, r) <= k < MissingOf(c, r)
    ensures var answer := Serve(header, Serve(header, c, r).0, again).1;
      answer.Some? && |answer.value| == c.len && answer.value[k] == header(r.hashes[k]) &&
        again.hashes[k] != r.hashes[k]
  {
    var d := Serve(header, c, r).0;
    assert Slots(c, r)[c.len - 1] == Slots(c, r)[..c.len][c.len - 1];
    assert d.slots[c.len - 1] == c.slots[c.len - 1];
    assert ForkOf(d, again) == c.len;
    assert Slots(c, r)[k] == Slots(c, r)[..c.len][k];
  }

  function SetOf(hashes: seq<Hash>): set<Hash> {
    set k | 0 <= k < |hashes| :: hashes[k]
  }

  /** Nothing asked for is in empty slots, and the index has everything. */
  lemma FirstFork(slots: seq<Entry>, r: Request)
    requires NO_HASH !in r.hashes && |r.hashes| <= |slots| && !r.failing && r.known == SetOf(r.hashes)
    requires forall k :: 0 <= k < |r.hashes| ==> slots[k] == ZERO
    ensures ForkIn(slots, r) == 0 && MissingIn(slots, r) == |r.hashes|
  {
    assert forall k :: 0 <= k < |r.hashes| ==> r.hashes[k] in r.hashes && r.hashes[k] in r.known;
  }

  /** The first request for a chain fills a new cache with it, whatever room is left. */
  lemma FirstFill(header: Hash -> Header, a: seq<Hash>, capacity: nat)
    requires NO_HASH !in a && 0 < |a| <= capacity
    ensures var c := Serve(header, EMPTY, Request(a, SetOf(a), false, capacity)).0;
      && c.len == |a| && |c.slots| == capacity
      && forall k :: 0 <= k < |a| ==> c.slots[k] == Entry(a[k], header(a[k]))
  {
    var r := Request(a, SetOf(a), false, capacity);
    var slots := Slots(EMPTY, r);
    assert |slots| == capacity;
    FirstFork(slots, r);
    assert Serve(header, EMPTY, r).0 == Cache(Rewritten(header, slots, r), |a|);
  }

  /** The chain `b` shares its first checkpoint with what is cached, and no other. */
  ghost predicate Leaves(c: Cache, b: seq<Hash>) {
    && c.len <= |c.slots| && 1 < c.len < |b| <= |c.slots|
    && c.slots[0].hash == b[0] && (forall k :: 1 <= k < c.len ==> c.slots[k].hash != b[k])
    && NO_HASH !in b
  }

  lemma ForkAfterFirst(c: Cache, r: Request)
    requires Leaves(c, r.hashes)
    ensures InPlace(c, r) && ForkOf(c, r) == 1
  {
    var s := Slots(c, r);
    assert forall k :: 0 <= k < c.len ==> s[k] == s[..c.len][k] == c.slots[..c.len][k] == c.slots[k];
    assert forall k :: 0 <= k < |r.hashes| ==> r.hashes[k] in r.hashes;
    assert s[0].hash == r.hashes[0] && forall k :: 1 <= k < |r.hashes| ==> s[k].hash != r.hashes[k];
  }

  /** Such a request spoils the cache if the index has the second header and not the third. */
  lemma SpoilsAfterFirst(c: Cache, r: Request)
    requires Leaves(c, r.hashes) && c.len >= 3 && !r.failing && r.hashes[1] in r.known && r.hashes[2] !in r.known
    ensures Spoils(c, r)
  {
    ForkAfterFirst(c, r);
    assert Missing(r.hashes, r.known, 2) == 2;
    assert Missing(r.hashes, r.known, 1) == 2;
  }

  lemma FilledLeaves(header: Hash -> Header, c: Cache, a: seq<Hash>, b: seq<Hash>)
    requires c.len == |a| && forall k :: 0 <= k < |a| ==> k < |c.slots| && c.slots[k] == Entry(a[k], header(a[k]))
    requires NO_HASH !in b && 1 < |a| < |b| <= |c.slots|
    requires a[0] == b[0] && forall k :: 1 <= k < |a| ==> a[k] != b[k]
    ensures Leaves(c, b)
  {
  }

  /** The spoiling case does occur: a chain of at least three is cached with room for more, a
      longer one that left it after the first is asked for, and the index has the header of the
      second but not of the third. */
  lemma SpoilsOccurs(header: Hash -> Header, a: seq<Hash>, b: seq<Hash>, capacity: nat)
    requires NO_HASH !in a && NO_HASH !in b && 3 <= |a| < |b| <= capacity
    requires a[0] == b[0] && b[1] != b[2] && forall k :: 1 <= k < |a| ==> a[k] != b[k]
    ensures Spoils(Serve(header, EMPTY, Request(a, SetOf(a), false, capacity)).0, Request(b, {b[1]}, false, capacity))
  {
    FirstFill(header, a, capacity);
    FilledLeaves(header, Serve(header, EMPTY, Request(a, SetOf(a), false, capacity)).0, a, b);
    SpoilsAfterFirst(Serve(header, EMPTY, Request(a, SetOf(a), false, capacity)).0,
      Request(b, {b[1]}, false, capacity));
  }

  // ---------------------------------------------------------- queued answers

  /** An answer is queued with references to the entries it was served from, and written to the
      wire later. A request overwrites an entry of the array those are in exactly if it grows the
      cache in that array, for a chain that left the cached one below the entry, as far as the
      index has headers. */
  predicate Overwrites(c: Cache, r: Request, k: nat)
    requires c.len <= |c.slots|
  {
    InPlace(c, r) && ForkOf(c, r) <= k < MissingOf(c, r)
  }

  /** What the array of a cache holds after a request, whether the cache stays in it or moves. */
  function Behind(header: Hash -> Header, c: Cache, r: Request): seq<Entry>
    requires c.len <= |c.slots|
  {
    if InPlace(c, r) then Rewritten(header, Slots(c, r), r) else c.slots
  }

  lemma BehindAt(header: Hash -> Header, c: Cache, r: Request, k: nat)
    requires k < c.len <= |c.slots|
    ensures k < |Behind(header, c, r)|
    ensures Behind(header, c, r)[k] ==
      if Overwrites(c, r, k) then Entry(r.hashes[k], header(r.hashes[k])) else c.slots[k]
  {
    var s := Slots(c, r);
    assert s[k] == s[..c.len][k] == c.slots[..c.len][k];
  }

  /** A queued answer whose first `fork` headers are entries of this cache stays what it was
      through a request if and only if none of these is overwritten with another header. */
  lemma QueuedAnswerIff(header: Hash -> Header, c: Cache, fork: nat, r: Request)
    requires fork <= c.len <= |c.slots|
    ensures |Behind(header, c, r)| >= fork
    ensures Served(Behind(header, c, r)[..fork]) == Served(c.slots[..fork]) <==>
      forall k :: 0 <= k < fork && Overwrites(c, r, k) ==> header(r.hashes[k]) == c.slots[k].header
  {
    if fork > 0 { BehindAt(header, c, r, fork - 1); }
    var (now, was) := (Served(Behind(header, c, r)[..fork]), Served(c.slots[..fork]));
    forall k | 0 <= k < fork
      ensures now[k] == if Overwrites(c, r, k) then header(r.hashes[k]) else was[k]
    {
      BehindAt(header, c, r, k);
    }
    if forall k :: 0 <= k < fork && Overwrites(c, r, k) ==> header(r.hashes[k]) == c.slots[k].header {
      assert now == was;
    } else {
      var k :| 0 <= k < fork && Overwrites(c, r, k) && header(r.hashes[k]) != c.slots[k].header;
      assert now[k] != was[k];
    }
  }

  /** It happens with a complete index: an answer served from a cached chain is queued, a longer
      chain that left it after the first checkpoint is asked for, and the answer shows the other
      chain's headers from the second on. */
  lemma QueuedAnswerRewritten(header: Hash -> Header, c: Cache, b: seq<Hash>, capacity: nat, k: nat)
    requires Leaves(c, b) && 1 <= k < c.len
    ensures var r := Request(b, SetOf(b), false, capacity);
      Answered(c, r) && Behind(header, c, r)[k].header == header(b[k]) && c.slots[k].hash != b[k]
  {
    var r := Request(b, SetOf(b), false, capacity);
    ForkAfterFirst(c, r);
    assert forall j :: 0 <= j < |b| ==> b[j] in SetOf(b);
    BehindAt(header, c, r, k);
  }

  // -------------------------------------------------------------- the class

  /** The cache of one filter type. */
  class FilterHeaderCache {
    const header: Hash -> Header
    var entries: array<Entry>
    var len: nat

    constructor (h: Hash -> Header)
      ensures header == h && View() == EMPTY
    {
      header := h;
      entries := new Entry[0];
      len := 0;
    }

    ghost function View(): Cache
      reads this, entries
    {
      Cache(entries[..], len)
    }

    /** Append zero entries: in the spare capacity if there is enough, else in a new array. */
    method Grow(r: Request) returns (local: array<Entry>)
      requires len < |r.hashes| && len <= entries.Length
      modifies entries
      ensures local[..] == Slots(old(View()), r)
      ensures if |r.hashes| <= entries.Length then local == entries else fresh(local) && entries[..] == old(entries[..])
    {
      if |r.hashes| <= entries.Length {
        for i := len to |r.hashes|
          invariant entries[..len] == old(entries[..len]) && entries[|r.hashes|..] == old(entries[|r.hashes|..])
          invariant forall k :: len <= k < i ==> entries[k] == ZERO
        {
          entries[i] := ZERO;
        }
        assert entries[..] == entries[..len] + entries[len..|r.hashes|] + entries[|r.hashes|..];
        return entries;
      }
      local := new Entry[if r.capacity < |r.hashes| then |r.hashes| else r.capacity](i => ZERO);
      for i := 0 to len
        invariant local[..i] == entries[..i] && forall k :: i <= k < local.Length ==> local[k] == ZERO
        invariant entries[..] == old(entries[..])
      {
        local[i] := entries[i];
      }
      assert local[..] == local[..len] + local[len..];
    }

    /** Scan backwards for the last entry that names its checkpoint. */
    static method FindFork(local: array<Entry>, hashes: seq<Hash>) returns (fork: nat)
      requires |hashes| <= local.Length
      ensures fork == Fork(local[..], hashes, |hashes|)
    {
      fork := |hashes|;
      while fork > 0 && local[fork - 1].hash != hashes[fork - 1]
        invariant fork <= |hashes| && Fork(local[..], hashes, fork) == Fork(local[..], hashes, |hashes|)
      {
        fork := fork - 1;
      }
    }

    /** Fetch headers from the fork on, rewriting the slice if it grew, up to the first that
        is missing. */
    method FetchHeaders(r: Request, local: array<Entry>, update: bool, fork: nat) returns (m: nat, headers: seq<Header>)
      requires fork <= |r.hashes| <= local.Length
      modifies local
      ensures m == Missing(r.hashes, r.known, fork) && headers == Headers(header, r.hashes[fork..m])
      ensures local[..] == if update then Fill(header, old(local[..]), r.hashes, fork, m) else old(local[..])
    {
      m, headers := fork, [];
      while m < |r.hashes| && r.hashes[m] in r.known
        invariant fork <= m <= |r.hashes| && Missing(r.hashes, r.known, m) == Missing(r.hashes, r.known, fork)
        invariant headers == Headers(header, r.hashes[fork..m])
        invariant local[..] == if update then Fill(header, old(local[..]), r.hashes, fork, m) else old(local[..])
      {
        headers := headers + [header(r.hashes[m])];
        HeadersStep(header, r.hashes, fork, m);
        FillStep(header, old(local[..]), r.hashes, fork, m);
        if update {
          local[m] := Entry(r.hashes[m], header(r.hashes[m]));
        }
        m := m + 1;
      }
    }

    /** Work on a slice: `local` is the backing array itself or a new one. The cached part of the
        answer refers to its entries. */
    method ServeFrom(r: Request, local: array<Entry>, update: bool) returns (msg: CheckpointMessage?)
      requires |r.hashes| <= local.Length
      modifies local
      ensures msg != null <==> Complete(old(local[..]), r)
      ensures msg != null ==> fresh(msg) && msg.cached == local && msg.Refers(old(local[..]), r)
      ensures msg != null ==> msg.Headers() == Reply(header, old(local[..]), r)
      ensures local[..] == if update then Rewritten(header, old(local[..]), r) else old(local[..])
    {
      var fork := FindFork(local, r.hashes);
      if r.failing {
        assert Fill(header, local[..], r.hashes, fork, fork) == local[..];
        return null;
      }
      var m, fetched := FetchHeaders(r, local, update, fork);
      if m < |r.hashes| { return null; }
      assert r.hashes[fork..m] == r.hashes[fork..];
      msg := new CheckpointMessage(local, fork, fetched);
      assert local[..][..fork] == old(local[..])[..fork];
    }

    /** Serve beyond the end of the cache: the grown slice is kept if every header is found. */
    method ServeGrowing(r: Request) returns (msg: CheckpointMessage?)
      requires len <= entries.Length && len < |r.hashes|
      modifies this, entries
      ensures len <= entries.Length
      ensures (View(), AnswerOf(msg)) == Serve(header, old(View()), r)
      ensures msg != null ==> fresh(msg) && msg.cached == entries && msg.fork == ForkOf(old(View()), r)
      ensures old(entries)[..] == Behind(header, old(View()), r)
    {
      var local := Grow(r);
      msg := ServeFrom(r, local, true);
      if msg != null {
        entries := local;
        len := |r.hashes|;
      }
    }

    /** Cache and answer are as specified; the answer refers to entries of the array the cache is
        in now; and the array it was in holds what `Behind` says, which is what answers queued
        before refer to. */
    method OnGetCFCheckpt(r: Request) returns (msg: CheckpointMessage?)
      requires len <= entries.Length
      modifies this, entries
      ensures len <= entries.Length
      ensures (View(), AnswerOf(msg)) == Serve(header, old(View()), r)
      ensures msg != null ==> fresh(msg) && msg.cached == entries && msg.fork == ForkOf(old(View()), r)
      ensures old(entries)[..] == Behind(header, old(View()), r)
    {
      if |r.hashes| > len {
        msg := ServeGrowing(r);
      } else {
        msg := ServeFrom(r, entries, false);
      }
    }

    /** A peer's request: the checkpoints of the stop block, if that is known, then their headers. */
    method Answer(t: Tree, best: seq<Hash>, stop: Hash, interval: nat, known: set<Hash>, failing: bool, capacity: nat)
      returns (msg: CheckpointMessage?, ghost r: Request)
      requires TreeOk(t) && BestOk(t, best) && interval > 0 && len <= entries.Length
      modifies this, entries
      ensures len <= entries.Length
      ensures stop !in t.height ==> msg == null && View() == old(View())
      ensures stop in t.height ==>
        && AreCheckpoints(t, stop, interval, r.hashes) && r == Request(r.hashes, known, failing, capacity)
        && (View(), AnswerOf(msg)) == Serve(header, old(View()), r)
    {
      r := Request([], known, failing, capacity);
      if stop !in t.height { return null, r; }
      var hashes := IntervalBlockHashes(t, best, stop, interval);
      r := Request(hashes, known, failing, capacity);
      msg := OnGetCFCheckpt(Request(hashes, known, failing, capacity));
    }
  }

  /** A queued answer: its first headers are those of cache entries at the time it is written. */
  class CheckpointMessage {
    const cached: array<Entry>
    const fork: nat
    const fetched: seq<Header>

    constructor (cached: array<Entry>, fork: nat, fetched: seq<Header>)
      requires fork <= cached.Length
      ensures this.cached == cached && this.fork == fork && this.fetched == fetched
    {
      this.cached, this.fork, this.fetched := cached, fork, fetched;
    }

    ghost predicate Refers(slots: seq<Entry>, r: Request) {
      |r.hashes| <= |slots| && fork == ForkIn(slots, r) && fork <= cached.Length
    }

    ghost function Headers(): seq<Header>
      requires fork <= cached.Length
      reads cached
    {
      Served(cached[..][..fork]) + fetched
    }

    /** Write the message: header by header, from the entries as they are now. */
    method Write() returns (headers: seq<Header>)
      requires fork <= cached.Length
      ensures headers == Headers()
    {
      headers := [];
      for i := 0 to fork
        invariant headers == Served(cached[..][..i])
      {
        headers := headers + [cached[i].header];
      }
      headers := headers + fetched;
    }
  }

  ghost function AnswerOf(msg: CheckpointMessage?): Option<seq<Header>>
    reads msg, if msg == null then {} else {msg.cached}
  {
    if msg == null || msg.fork > msg.cached.Length then None else Some(msg.Headers())
  }
}
