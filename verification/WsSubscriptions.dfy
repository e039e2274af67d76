/** What websocket clients watch: outpoints until they are spent, and addresses, which put the
    outpoints that pay them on watch. Every request is kept twice, under what is watched and
    under the client. */
module WsSubscriptions {
  import opened Framing

  datatype Client = Client(id: nat)
  datatype OutPoint = OutPoint(tx: Bytes, index: nat)
  type Address = Bytes

  /** A transaction: what it spends, and the addresses each output pays. */
  datatype Tx = Tx(id: Bytes, inputs: seq<OutPoint>, outputs: seq<seq<Address>>)

  datatype Request<K> = Request(client: Client, key: K)

  // ------------------------------------------------------------ what is due

  function Unspent(spent: set<Request<OutPoint>>, inputs: seq<OutPoint>): set<Request<OutPoint>> {
    set r | r in spent && r.key !in inputs
  }

  /** The requests that one output of a transaction puts on watch. */
  function Paying(addrs: set<Request<Address>>, payees: seq<Address>, o: OutPoint): set<Request<OutPoint>> {
    set a | a in addrs && a.key in payees :: Request(a.client, o)
  }

  function Created(addrs: set<Request<Address>>, tx: Tx, n: nat): set<Request<OutPoint>>
    requires n <= |tx.outputs|
  {
    if n == 0 then {} else Created(addrs, tx, n - 1) + Paying(addrs, tx.outputs[n - 1], OutPoint(tx.id, n - 1))
  }

  /** Inputs are looked at before outputs; only a connected block takes requests off. */
  function AfterTx(spent: set<Request<OutPoint>>, addrs: set<Request<Address>>, tx: Tx,
                   connected: bool): set<Request<OutPoint>>
  {
    (if connected then Unspent(spent, tx.inputs) else spent) + Created(addrs, tx, |tx.outputs|)
  }

  /** The requests left by the transactions of connected blocks, in order. */
  function AfterTxs(spent: set<Request<OutPoint>>, addrs: set<Request<Address>>, txs: seq<Tx>): set<Request<OutPoint>> {
    if txs == [] then spent
    else AfterTx(AfterTxs(spent, addrs, txs[..|txs| - 1]), addrs, txs[|txs| - 1], true)
  }

  predicate SpentBy(o: OutPoint, txs: seq<Tx>, from: nat) {
    exists j :: from <= j < |txs| && o in txs[j].inputs
  }

  predicate CreatedBy(r: Request<OutPoint>, addrs: set<Request<Address>>, txs: seq<Tx>, i: nat)
    requires i < |txs|
  {
    r in Created(addrs, txs[i], |txs[i].outputs|)
  }

  /** What should be on watch after a run: what was on watch and is not spent, and what one
      of its transactions created and no later one spends. */
  ghost predicate Due(spent: set<Request<OutPoint>>, addrs: set<Request<Address>>, txs: seq<Tx>, r: Request<OutPoint>) {
    || (r in spent && !SpentBy(r.key, txs, 0))
    || exists i :: 0 <= i < |txs| && CreatedBy(r, addrs, txs, i) && !SpentBy(r.key, txs, i + 1)
  }

  lemma DueStep(spent: set<Request<OutPoint>>, addrs: set<Request<Address>>, txs: seq<Tx>, r: Request<OutPoint>)
    requires txs != []
    ensures Due(spent, addrs, txs, r) <==>
      || CreatedBy(r, addrs, txs, |txs| - 1)
      || (Due(spent, addrs, txs[..|txs| - 1], r) && r.key !in txs[|txs| - 1].inputs)
  {
    var n := |txs| - 1;
    var init := txs[..n];
    SpentByLast(r.key, txs, 0);
    if i :| 0 <= i < n && CreatedBy(r, addrs, txs, i) && !SpentBy(r.key, txs, i + 1) {
      SpentByLast(r.key, txs, i + 1);
      assert CreatedBy(r, addrs, init, i);
    }
    if i :| 0 <= i < |init| && CreatedBy(r, addrs, init, i) && !SpentBy(r.key, init, i + 1) {
      SpentByLast(r.key, txs, i + 1);
      assert CreatedBy(r, addrs, txs, i);
    }
    assert !SpentBy(r.key, txs, n + 1);
  }

  /** After any run of connected transactions, exactly that is on watch. */
  lemma {:induction false} WatchedIff(spent: set<Request<OutPoint>>, addrs: set<Request<Address>>, txs: seq<Tx>,
                                      r: Request<OutPoint>)
    ensures r in AfterTxs(spent, addrs, txs) <==> Due(spent, addrs, txs, r)
    decreases txs
  {
    if txs != [] {
      WatchedIff(spent, addrs, txs[..|txs| - 1], r);
      DueStep(spent, addrs, txs, r);
    }
  }

  lemma SpentByLast(o: OutPoint, txs: seq<Tx>, i: nat)
    requires i < |txs|
    ensures SpentBy(o, txs, i) <==> SpentBy(o, txs[..|txs| - 1], i) || o in txs[|txs| - 1].inputs
  {
    var init := txs[..|txs| - 1];
    if j :| i <= j < |init| && o in init[j].inputs {
      assert o in txs[j].inputs;
    }
    if j :| i <= j < |txs| && o in txs[j].inputs {
      assert j == |txs| - 1 || o in init[j].inputs;
    }
  }

  /** The transaction spends the outpoint while the request for it is on watch. */
  predicate Answered(spent: set<Request<OutPoint>>, addrs: set<Request<Address>>, txs: seq<Tx>, r: Request<OutPoint>,
                     i: nat)
    requires i < |txs|
  {
    r in AfterTxs(spent, addrs, txs[..i]) && r.key in txs[i].inputs
  }

  /** A request that no transaction makes again is answered by the first that spends it. */
  lemma FirstAnswer(spent: set<Request<OutPoint>>, addrs: set<Request<Address>>, txs: seq<Tx>, r: Request<OutPoint>,
                    i: nat)
    requires i < |txs| && forall k :: 0 <= k < i ==> !CreatedBy(r, addrs, txs, k)
    ensures Answered(spent, addrs, txs, r, i) <==>
      r in spent && r.key in txs[i].inputs && !SpentBy(r.key, txs[..i], 0)
  {
    WatchedIff(spent, addrs, txs[..i], r);
    forall k | 0 <= k < i ensures !CreatedBy(r, addrs, txs[..i], k) {
      assert txs[..i][k] == txs[k] && !CreatedBy(r, addrs, txs, k);
    }
  }

  /** A request is answered once: after an answer, a later transaction answers it again exactly
      if one of the transactions since made it again and no other has spent the outpoint since. */
  lemma AnsweredOnce(spent: set<Request<OutPoint>>, addrs: set<Request<Address>>, txs: seq<Tx>, r: Request<OutPoint>,
                     i: nat, j: nat)
    requires i < j < |txs| && Answered(spent, addrs, txs, r, i)
    ensures Answered(spent, addrs, txs, r, j) <==>
      && r.key in txs[j].inputs
      && exists k :: i <= k < j && CreatedBy(r, addrs, txs, k) && !SpentBy(r.key, txs[..j], k + 1)
  {
    var init := txs[..j];
    WatchedIff(spent, addrs, init, r);
    assert r.key in init[i].inputs && SpentBy(r.key, init, 0);
    if k :| 0 <= k < |init| && CreatedBy(r, addrs, init, k) && !SpentBy(r.key, init, k + 1) {
      assert CreatedBy(r, addrs, txs, k) && i <= k;
    }
    if k :| i <= k < j && CreatedBy(r, addrs, txs, k) && !SpentBy(r.key, init, k + 1) {
      assert CreatedBy(r, addrs, init, k);
    }
  }

  // ------------------------------------------------------------- all events

  /** What reaches the manager: transactions of connected blocks and of the mempool, requests for
      outpoints and addresses, their withdrawal, and clients that leave. */
  datatype Event =
    | Mined(tx: Tx)
    | Pooled(tx: Tx)
    | WatchOutPoints(client: Client, ops: seq<OutPoint>)
    | UnwatchOutPoint(client: Client, op: OutPoint)
    | WatchAddresses(client: Client, addrs: seq<Address>)
    | UnwatchAddress(client: Client, addr: Address)
    | Leaves(client: Client)

  datatype Watch = Watch(spent: set<Request<OutPoint>>, addrs: set<Request<Address>>)

  function RequestsFor<K(==)>(c: Client, keys: seq<K>): set<Request<K>> {
    set k | k in keys :: Request(c, k)
  }

  function OthersThan<K(==)>(pairs: set<Request<K>>, c: Client): set<Request<K>> {
    set r | r in pairs && r.client != c
  }

  function Next(w: Watch, e: Event): Watch {
    match e
    case Mined(tx) => w.(spent := AfterTx(w.spent, w.addrs, tx, true))
    case Pooled(tx) => w.(spent := AfterTx(w.spent, w.addrs, tx, false))
    case WatchOutPoints(c, ops) => w.(spent := w.spent + RequestsFor(c, ops))
    case UnwatchOutPoint(c, o) => w.(spent := w.spent - {Request(c, o)})
    case WatchAddresses(c, addrs) => w.(addrs := w.addrs + RequestsFor(c, addrs))
    case UnwatchAddress(c, a) => w.(addrs := w.addrs - {Request(c, a)})
    case Leaves(c) => Watch(OthersThan(w.spent, c), OthersThan(w.addrs, c))
  }

  function After(w: Watch, events: seq<Event>): Watch {
    if events == [] then w else Next(After(w, events[..|events| - 1]), events[|events| - 1])
  }

  /** The event asks for the outpoint, or a transaction creates it at a watched address. */
  predicate Makes(w: Watch, e: Event, r: Request<OutPoint>) {
    match e
    case Mined(tx) => r in Created(w.addrs, tx, |tx.outputs|)
    case Pooled(tx) => r in Created(w.addrs, tx, |tx.outputs|)
    case WatchOutPoints(c, ops) => r.client == c && r.key in ops
    case _ => false
  }

  /** The event spends the outpoint in a block, withdraws the request, or is its client leaving. */
  predicate Ends(e: Event, r: Request<OutPoint>) {
    match e
    case Mined(tx) => r.key in tx.inputs
    case UnwatchOutPoint(c, o) => r == Request(c, o)
    case Leaves(c) => r.client == c
    case _ => false
  }

  predicate Asks(e: Event, a: Request<Address>) {
    e.WatchAddresses? && a.client == e.client && a.key in e.addrs
  }

  predicate Withdraws(e: Event, a: Request<Address>) {
    match e
    case UnwatchAddress(c, x) => a == Request(c, x)
    case Leaves(c) => a.client == c
    case _ => false
  }

  lemma NextExact(w: Watch, e: Event, r: Request<OutPoint>, a: Request<Address>)
    ensures r in Next(w, e).spent <==> Makes(w, e, r) || (r in w.spent && !Ends(e, r))
    ensures a in Next(w, e).addrs <==> Asks(e, a) || (a in w.addrs && !Withdraws(e, a))
  {
    match e
    case WatchOutPoints(c, ops) => assert r == Request(r.client, r.key);
    case WatchAddresses(c, addrs) => assert a == Request(a.client, a.key);
    case _ =>
  }

  /** No event from `i` on ends the request. */
  predicate Stays(events: seq<Event>, r: Request<OutPoint>, i: nat) {
    forall j :: i <= j < |events| ==> !Ends(events[j], r)
  }

  predicate MadeAt(w: Watch, events: seq<Event>, r: Request<OutPoint>, i: nat)
    requires i < |events|
  {
    Makes(After(w, events[..i]), events[i], r)
  }

  /** What should be on watch after a run of events. */
  ghost predicate DueAfter(w: Watch, events: seq<Event>, r: Request<OutPoint>) {
    || (r in w.spent && Stays(events, r, 0))
    || exists i :: 0 <= i < |events| && MadeAt(w, events, r, i) && Stays(events, r, i + 1)
  }

  lemma StaysNext(events: seq<Event>, e: Event, r: Request<OutPoint>, i: nat)
    requires i <= |events|
    ensures Stays(events + [e], r, i) <==> Stays(events, r, i) && !Ends(e, r)
  {
    var all := events + [e];
    assert forall j :: i <= j < |events| ==> all[j] == events[j];
    assert all[|events|] == e;
  }

  lemma DueAfterNext(w: Watch, events: seq<Event>, e: Event, r: Request<OutPoint>)
    ensures DueAfter(w, events + [e], r) <==>
      Makes(After(w, events), e, r) || (DueAfter(w, events, r) && !Ends(e, r))
  {
    var all := events + [e];
    var n := |events|;
    assert all[..n] == events && (MadeAt(w, all, r, n) <==> Makes(After(w, events), e, r));
    assert Stays(all, r, n + 1);
    StaysNext(events, e, r, 0);
    forall i | 0 <= i < n
      ensures MadeAt(w, all, r, i) <==> MadeAt(w, events, r, i)
      ensures Stays(all, r, i + 1) <==> Stays(events, r, i + 1) && !Ends(e, r)
    {
      assert all[..i] == events[..i] && all[i] == events[i];
      StaysNext(events, e, r, i + 1);
    }
  }

  /** After any run of events, requests and withdrawals of outpoints and addresses among them, an
      outpoint is on watch for a client if and only if it was asked for, or created at an address
      the client watched then, and has since been neither spent in a block nor withdrawn. */
  lemma {:induction false} WatchedAfter(w: Watch, events: seq<Event>, r: Request<OutPoint>)
    ensures r in After(w, events).spent <==> DueAfter(w, events, r)
    decreases events
  {
    if events != [] {
      var (init, e) := (events[..|events| - 1], events[|events| - 1]);
      assert events == init + [e];
      WatchedAfter(w, init, r);
      NextExact(After(w, init), e, r, Request(r.client, []));
      DueAfterNext(w, init, e, r);
    }
  }

  /** And an address is watched for a client if and only if it was asked for and not withdrawn since. */
  lemma {:induction false} AddressWatchedAfter(w: Watch, events: seq<Event>, a: Request<Address>)
    ensures a in After(w, events).addrs <==>
      || (a in w.addrs && forall j :: 0 <= j < |events| ==> !Withdraws(events[j], a))
      || exists i :: 0 <= i < |events| && Asks(events[i], a) &&
                     forall j :: i < j < |events| ==> !Withdraws(events[j], a)
    decreases events
  {
    if events != [] {
      var (init, e) := (events[..|events| - 1], events[|events| - 1]);
      AddressWatchedAfter(w, init, a);
      NextExact(After(w, init), e, Request(a.client, OutPoint([], 0)), a);
      assert forall j :: 0 <= j < |init| ==> init[j] == events[j];
      assert events[|events| - 1] == e;
    }
  }

  function MinedAll(txs: seq<Tx>): seq<Event> {
    seq(|txs|, i requires 0 <= i < |txs| => Mined(txs[i]))
  }

  /** A block is its transactions, one after the other. */
  lemma {:induction false} BlockIsMined(w: Watch, txs: seq<Tx>)
    ensures After(w, MinedAll(txs)) == w.(spent := AfterTxs(w.spent, w.addrs, txs))
    decreases txs
  {
    if txs != [] {
      var init := txs[..|txs| - 1];
      BlockIsMined(w, init);
      assert MinedAll(txs)[..|txs| - 1] == MinedAll(init);
    }
  }

  lemma PayingExact(addrs: set<Request<Address>>, payees: seq<Address>, o: OutPoint, r: Request<OutPoint>)
    ensures r in Paying(addrs, payees, o) <==> r.key == o && exists a :: a in payees && Request(r.client, a) in addrs
  {
    if r in Paying(addrs, payees, o) {
      var q :| q in addrs && q.key in payees && r == Request(q.client, o);
      assert Request(r.client, q.key) == q;
    }
    if a :| r.key == o && a in payees && Request(r.client, a) in addrs {
      assert Request(Request(r.client, a).client, o) == r;
    }
  }

  /** An outpoint is put on watch for exactly the clients that watch an address it pays. */
  lemma {:induction false} CreatedExact(addrs: set<Request<Address>>, tx: Tx, n: nat, r: Request<OutPoint>)
    requires n <= |tx.outputs|
    ensures r in Created(addrs, tx, n) <==>
      r.key.tx == tx.id && r.key.index < n && exists a :: a in tx.outputs[r.key.index] && Request(r.client, a) in addrs
  {
    if n > 0 {
      CreatedExact(addrs, tx, n - 1, r);
      PayingExact(addrs, tx.outputs[n - 1], OutPoint(tx.id, n - 1), r);
    }
  }

  lemma {:induction false} NobodyWatching(addrs: set<Request<Address>>, txs: seq<Tx>)
    requires addrs == {}
    ensures AfterTxs({}, addrs, txs) == {}
    decreases txs
  {
    if txs != [] {
      NobodyWatching(addrs, txs[..|txs| - 1]);
      NothingCreated(addrs, txs[|txs| - 1], |txs[|txs| - 1].outputs|);
    }
  }

  lemma {:induction false} NothingCreated(addrs: set<Request<Address>>, tx: Tx, n: nat)
    requires addrs == {} && n <= |tx.outputs|
    ensures Created(addrs, tx, n) == {}
  {
    if n > 0 { NothingCreated(addrs, tx, n - 1); }
  }

  // ---------------------------------------------------------------- one index

  predicate Watched<K(==)>(watchers: map<K, set<Client>>, c: Client, k: K) {
    k in watchers && c in watchers[k]
  }

  predicate Asked<K(==)>(requests: map<Client, set<K>>, c: Client, k: K) {
    c in requests && k in requests[c]
  }

  /** The two sides agree, and nothing is watched by nobody. */
  ghost predicate IndexOk<K(!new)>(watchers: map<K, set<Client>>, requests: map<Client, set<K>>) {
    && (forall k :: k in watchers ==> watchers[k] != {})
    && (forall c, k :: Watched(watchers, c, k) <==> Asked(requests, c, k))
  }

  ghost function PairsOf<K>(requests: map<Client, set<K>>): set<Request<K>> {
    set c, k | c in requests && k in requests[c] :: Request(c, k)
  }

  function WithWatcher<K>(watchers: map<K, set<Client>>, c: Client, k: K): map<K, set<Client>> {
    watchers[k := (if k in watchers then watchers[k] else {}) + {c}]
  }

  function WithRequest<K>(requests: map<Client, set<K>>, c: Client, k: K): map<Client, set<K>> {
    requests[c := (if c in requests then requests[c] else {}) + {k}]
  }

  lemma AddOk<K(!new)>(watchers: map<K, set<Client>>, requests: map<Client, set<K>>, c: Client, k: K)
    requires IndexOk(watchers, requests)
    ensures IndexOk(WithWatcher(watchers, c, k), WithRequest(requests, c, k))
    ensures PairsOf(WithRequest(requests, c, k)) == PairsOf(requests) + {Request(c, k)}
  {
    var (w, q) := (WithWatcher(watchers, c, k), WithRequest(requests, c, k));
    forall d, j ensures Watched(w, d, j) <==> Asked(q, d, j) {
      assert Watched(watchers, d, j) <==> Asked(requests, d, j);
      assert Watched(w, d, j) <==> Watched(watchers, d, j) || (d == c && j == k);
      assert Asked(q, d, j) <==> Asked(requests, d, j) || (d == c && j == k);
    }
  }

  function WithoutWatcher<K>(watchers: map<K, set<Client>>, c: Client, k: K): map<K, set<Client>> {
    if k !in watchers then watchers
    else if watchers[k] - {c} == {} then watchers - {k}
    else watchers[k := watchers[k] - {c}]
  }

  function WithoutRequest<K>(requests: map<Client, set<K>>, c: Client, k: K): map<Client, set<K>> {
    if c in requests then requests[c := requests[c] - {k}] else requests
  }

  lemma RemoveOk<K(!new)>(watchers: map<K, set<Client>>, requests: map<Client, set<K>>, c: Client, k: K)
    requires IndexOk(watchers, requests)
    ensures IndexOk(WithoutWatcher(watchers, c, k), WithoutRequest(requests, c, k))
    ensures PairsOf(WithoutRequest(requests, c, k)) == PairsOf(requests) - {Request(c, k)}
  {
    var (w, q) := (WithoutWatcher(watchers, c, k), WithoutRequest(requests, c, k));
    forall d, j ensures Watched(w, d, j) <==> Asked(q, d, j) {
      assert Watched(watchers, d, j) <==> Asked(requests, d, j);
      if k in watchers && d in watchers[k] && d != c {
        assert d in watchers[k] - {c};
      }
      assert Watched(w, d, j) <==> Watched(watchers, d, j) && !(d == c && j == k);
      assert Asked(q, d, j) <==> Asked(requests, d, j) && !(d == c && j == k);
    }
  }

  /** Requests by what is watched and by client. */
  class RequestIndex<K(==, !new)> {
    var watchers: map<K, set<Client>>
    var requests: map<Client, set<K>>

    constructor ()
      ensures IndexOk(watchers, requests) && Pairs() == {}
    {
      watchers, requests := map[], map[];
    }

    ghost function Pairs(): set<Request<K>>
      reads this
    {
      PairsOf(requests)
    }

    method Add(c: Client, k: K)
      requires IndexOk(watchers, requests)
      modifies this
      ensures IndexOk(watchers, requests) && Pairs() == old(Pairs()) + {Request(c, k)}
    {
      AddOk(watchers, requests, c, k);
      requests := requests[c := (if c in requests then requests[c] else {}) + {k}];
      var clients := if k in watchers then watchers[k] else {};
      watchers := watchers[k := clients + {c}];
    }

    method Remove(c: Client, k: K)
      requires IndexOk(watchers, requests)
      modifies this
      ensures IndexOk(watchers, requests) && Pairs() == old(Pairs()) - {Request(c, k)}
      ensures watchers == WithoutWatcher(old(watchers), c, k) && requests == WithoutRequest(old(requests), c, k)
    {
      RemoveOk(watchers, requests, c, k);
      if c in requests {
        requests := requests[c := requests[c] - {k}];
      }
      if k in watchers {
        var clients := watchers[k] - {c};
        watchers := if clients == {} then watchers - {k} else watchers[k := clients];
      }
    }

    /** Remove every request of a client: the index holds nothing of it afterwards. */
    method RemoveClient(c: Client)
      requires IndexOk(watchers, requests)
      modifies this
      ensures IndexOk(watchers, requests)
      ensures Pairs() == set r | r in old(Pairs()) && r.client != c
      ensures forall k :: !Watched(watchers, c, k)
    {
      var todo := if c in requests then requests[c] else {};
      while todo != {}
        invariant IndexOk(watchers, requests) && todo == if c in requests then requests[c] else {}
        invariant forall r :: r in Pairs() <==> r in old(Pairs()) && (r.client == c ==> r.key in todo)
        decreases |todo|
      {
        var k :| k in todo;
        Remove(c, k);
        todo := todo - {k};
      }
      forall k ensures !Watched(watchers, c, k) {
        assert Watched(watchers, c, k) <==> Asked(requests, c, k);
      }
    }

    /** Remove every request for something, one watcher after the other. */
    method RemoveKey(k: K)
      requires IndexOk(watchers, requests)
      modifies this
      ensures IndexOk(watchers, requests)
      ensures Pairs() == set r | r in old(Pairs()) && r.key != k
    {
      var todo := if k in watchers then watchers[k] else {};
      forall r | r in Pairs() && r.key == k ensures r.client in todo {
        assert Asked(requests, r.client, k);
      }
      while todo != {}
        invariant IndexOk(watchers, requests) && todo == if k in watchers then watchers[k] else {}
        invariant forall r :: r in Pairs() <==> r in old(Pairs()) && (r.key == k ==> r.client in todo)
        decreases |todo|
      {
        var c :| c in todo;
        Remove(c, k);
        todo := todo - {c};
      }
    }
  }

  // -------------------------------------------------------------- the manager

  ghost predicate Distinct(cs: seq<Client>) {
    forall i, j :: 0 <= i < j < |cs| ==> cs[i] != cs[j]
  }

  /** `sent` goes once to every client with a request for one of `keys`, and to no other. */
  ghost predicate SentFor<K(!new)>(sent: seq<Client>, pairs: set<Request<K>>, keys: seq<K>) {
    Distinct(sent) && forall c :: c in sent <==> exists k :: k in keys && Request(c, k) in pairs
  }

  lemma SentForNext<K(!new)>(sent: seq<Client>, next: seq<Client>, pairs: set<Request<K>>, keys: seq<K>, k: K,
                             clients: set<Client>)
    requires SentFor(sent, pairs, keys) && Distinct(next) && forall c :: c in next <==> c in sent || c in clients
    requires forall c :: Request(c, k) in pairs <==> c in clients || (k in keys && Request(c, k) in pairs)
    ensures SentFor(next, pairs, keys + [k])
  {
    forall c ensures c in next <==> exists j :: j in keys + [k] && Request(c, j) in pairs {
      if c in next {
        if c in sent {
          var j :| j in keys && Request(c, j) in pairs;
          assert j in keys + [k];
        } else {
          assert Request(c, k) in pairs && k in keys + [k];
        }
      }
      if j :| j in keys + [k] && Request(c, j) in pairs {
        assert j in keys || j == k;
      }
    }
  }

  /** Notify those clients that have not been notified yet. */
  method NotifyOnce(sent: seq<Client>, clients: set<Client>) returns (next: seq<Client>)
    requires Distinct(sent)
    ensures Distinct(next) && forall c :: c in next <==> c in sent || c in clients
  {
    next := sent;
    var todo := clients;
    while todo != {}
      invariant todo <= clients && Distinct(next)
      invariant forall c :: c in next <==> c in sent || (c in clients && c !in todo)
      decreases |todo|
    {
      var c :| c in todo;
      if c !in next {
        next := next + [c];
      }
      todo := todo - {c};
    }
  }

  lemma PayingNext(addrs: set<Request<Address>>, payees: seq<Address>, a: Address, o: OutPoint)
    ensures Paying(addrs, payees + [a], o) == Paying(addrs, payees, o) + Paying(addrs, [a], o)
  {
  }

  lemma PayingWatchers(addrs: set<Request<Address>>, a: Address, o: OutPoint, clients: set<Client>)
    requires forall c :: c in clients <==> Request(c, a) in addrs
    ensures Paying(addrs, [a], o) == ForAll(clients, o)
  {
    forall r ensures r in Paying(addrs, [a], o) <==> r in ForAll(clients, o) {
      PayingExact(addrs, [a], o, r);
    }
  }

  function ForAll(clients: set<Client>, o: OutPoint): set<Request<OutPoint>> {
    set c | c in clients :: Request(c, o)
  }

  /** Every address the first `n` outputs pay. */
  function Payees(tx: Tx, n: nat): seq<Address>
    requires n <= |tx.outputs|
  {
    if n == 0 then [] else Payees(tx, n - 1) + tx.outputs[n - 1]
  }

  lemma NobodyPaid(watchers: map<Address, set<Client>>, requests: map<Client, set<Address>>, a: Address, o: OutPoint,
                   sent: seq<Client>, keys: seq<Address>)
    requires IndexOk(watchers, requests) && a !in watchers && SentFor(sent, PairsOf(requests), keys)
    ensures Paying(PairsOf(requests), [a], o) == {}
    ensures SentFor(sent, PairsOf(requests), keys + [a])
  {
    forall c ensures Request(c, a) !in PairsOf(requests) {
      assert Watched(watchers, c, a) <==> Asked(requests, c, a);
    }
    PayingWatchers(PairsOf(requests), a, o, {});
    SentForNext(sent, sent, PairsOf(requests), keys, a, {});
  }

  lemma EmptyIndex<K(!new)>(watchers: map<K, set<Client>>, requests: map<Client, set<K>>)
    requires IndexOk(watchers, requests) && watchers == map[]
    ensures PairsOf(requests) == {}
  {
    forall r: Request<K> ensures r !in PairsOf(requests) {
      assert Watched(watchers, r.client, r.key) <==> Asked(requests, r.client, r.key);
    }
  }

  // ---------------------------------------------------------- mempool spends

  /** A client is told that a transaction spends an outpoint it watches. */
  datatype Notice = Notice(client: Client, tx: Tx)

  /** The mempool knows each of its transactions by every outpoint that it spends. */
  ghost predicate PoolOk(pool: OutPoint -> Option<Tx>) {
    forall o, t :: pool(o) == Some(t) ==> o in t.inputs && forall i :: i in t.inputs ==> pool(i) == Some(t)
  }

  ghost predicate Touched(pairs: set<Request<OutPoint>>, c: Client, t: Tx) {
    exists o :: o in t.inputs && Request(c, o) in pairs
  }

  ghost predicate SpentInPool(pool: OutPoint -> Option<Tx>, made: set<Request<OutPoint>>, t: Tx) {
    exists r :: r in made && pool(r.key) == Some(t)
  }

  /** The notices tell of exactly the mempool transactions that spend an outpoint just put on watch,
      and they tell everybody who watches something these spend. */
  ghost predicate EarlyFor(early: seq<Notice>, pool: OutPoint -> Option<Tx>, made: set<Request<OutPoint>>,
                           pairs: set<Request<OutPoint>>)
  {
    forall c, t :: Notice(c, t) in early <==> SpentInPool(pool, made, t) && Touched(pairs, c, t)
  }

  /** Putting more on watch tells of what this adds, and leaves nobody out. */
  lemma EarlyJoin(pool: OutPoint -> Option<Tx>, e1: seq<Notice>, made1: set<Request<OutPoint>>,
                  pairs: set<Request<OutPoint>>, e2: seq<Notice>, made2: set<Request<OutPoint>>)
    requires PoolOk(pool) && EarlyFor(e1, pool, made1, pairs) && EarlyFor(e2, pool, made2, pairs + made2)
    ensures EarlyFor(e1 + e2, pool, made1 + made2, pairs + made2)
  {
    forall c, t
      ensures Notice(c, t) in e1 + e2 <==> SpentInPool(pool, made1 + made2, t) && Touched(pairs + made2, c, t)
    {
      JoinOne(pool, e1, made1, pairs, e2, made2, c, t);
    }
  }

  lemma JoinOne(pool: OutPoint -> Option<Tx>, e1: seq<Notice>, made1: set<Request<OutPoint>>,
                pairs: set<Request<OutPoint>>, e2: seq<Notice>, made2: set<Request<OutPoint>>, c: Client, t: Tx)
    requires PoolOk(pool)
    requires Notice(c, t) in e1 <==> SpentInPool(pool, made1, t) && Touched(pairs, c, t)
    requires Notice(c, t) in e2 <==> SpentInPool(pool, made2, t) && Touched(pairs + made2, c, t)
    ensures Notice(c, t) in e1 + e2 <==> SpentInPool(pool, made1 + made2, t) && Touched(pairs + made2, c, t)
  {
    SpentJoin(pool, made1, made2, t);
    if Touched(pairs, c, t) {
      var o :| o in t.inputs && Request(c, o) in pairs;
      assert Request(c, o) in pairs + made2;
    }
    if SpentInPool(pool, made1, t) && Touched(pairs + made2, c, t) && !Touched(pairs, c, t) {
      var o :| o in t.inputs && Request(c, o) in pairs + made2;
      assert Request(c, o) in made2 && pool(o) == Some(t);
    }
  }

  lemma SpentJoin(pool: OutPoint -> Option<Tx>, made1: set<Request<OutPoint>>, made2: set<Request<OutPoint>>, t: Tx)
    ensures SpentInPool(pool, made1 + made2, t) <==> SpentInPool(pool, made1, t) || SpentInPool(pool, made2, t)
  {
    if SpentInPool(pool, made1, t) {
      var r :| r in made1 && pool(r.key) == Some(t);
      assert r in made1 + made2;
    }
    if SpentInPool(pool, made2, t) {
      var r :| r in made2 && pool(r.key) == Some(t);
      assert r in made1 + made2;
    }
  }

  function NoticesOf(sent: seq<Client>, t: Tx): (n: seq<Notice>)
    ensures forall x :: x in n <==> x.tx == t && x.client in sent
  {
    if sent == [] then [] else NoticesOf(sent[..|sent| - 1], t) + [Notice(sent[|sent| - 1], t)]
  }

  lemma SpendsMade(c: Client, ops: seq<OutPoint>, pool: OutPoint -> Option<Tx>, t: Tx, spends: set<Tx>)
    requires t in spends <==> exists o :: o in ops && pool(o) == Some(t)
    ensures t in spends <==> SpentInPool(pool, RequestsFor(c, ops), t)
  {
    if t in spends {
      var o :| o in ops && pool(o) == Some(t);
      assert Request(c, o) in RequestsFor(c, ops) && Request(c, o).key == o;
    }
  }

  lemma ForAllNext(clients: set<Client>, todo: set<Client>, c: Client, o: OutPoint)
    requires c in todo && todo <= clients
    ensures ForAll(clients - (todo - {c}), o) == ForAll(clients - todo, o) + RequestsFor(c, [o])
  {
    assert clients - (todo - {c}) == (clients - todo) + {c};
  }

  class NotificationManager {
    const spent: RequestIndex<OutPoint>
    const addrs: RequestIndex<Address>

    constructor ()
      ensures Valid() && spent.Pairs() == {} && addrs.Pairs() == {}
    {
      spent := new RequestIndex<OutPoint>();
      addrs := new RequestIndex<Address>();
    }

    ghost predicate Valid()
      reads this, spent, addrs
    {
      && (spent as object) != addrs
      && IndexOk(spent.watchers, spent.requests) && IndexOk(addrs.watchers, addrs.requests)
    }

    /** Tell the watchers of spent outpoints; in a connected block, their requests are done. */
    method NotifyForTxIns(tx: Tx, connected: bool) returns (sent: seq<Client>)
      requires Valid()
      modifies spent
      ensures Valid()
      ensures spent.Pairs() == if connected then Unspent(old(spent.Pairs()), tx.inputs) else old(spent.Pairs())
      ensures SentFor(sent, old(spent.Pairs()), tx.inputs)
    {
      sent := [];
      ghost var before := spent.Pairs();
      for i := 0 to |tx.inputs|
        invariant Valid()
        invariant spent.Pairs() == if connected then Unspent(before, tx.inputs[..i]) else before
        invariant SentFor(sent, before, tx.inputs[..i])
      {
        var o := tx.inputs[i];
        var clients := if o in spent.watchers then spent.watchers[o] else {};
        forall c ensures c in clients <==> Request(c, o) in spent.Pairs() {
          assert Watched(spent.watchers, c, o) <==> Asked(spent.requests, c, o);
        }
        var next := NotifyOnce(sent, clients);
        SentForNext(sent, next, before, tx.inputs[..i], o, clients);
        sent := next;
        if connected {
          spent.RemoveKey(o);
        }
        assert tx.inputs[..i + 1] == tx.inputs[..i] + [o];
      }
      assert tx.inputs[..|tx.inputs|] == tx.inputs;
    }

    /** Put outpoints on watch for a client, and tell at once of mempool transactions that spend them. */
    method AddSpentRequests(c: Client, ops: seq<OutPoint>, pool: OutPoint -> Option<Tx>) returns (early: seq<Notice>)
      requires Valid()
      modifies spent
      ensures Valid() && spent.Pairs() == old(spent.Pairs()) + RequestsFor(c, ops)
      ensures EarlyFor(early, pool, RequestsFor(c, ops), spent.Pairs())
    {
      for i := 0 to |ops|
        invariant Valid() && spent.Pairs() == old(spent.Pairs()) + RequestsFor(c, ops[..i])
      {
        spent.Add(c, ops[i]);
        assert ops[..i + 1] == ops[..i] + [ops[i]];
      }
      assert ops[..|ops|] == ops;
      var spends := PoolSpends(ops, pool);
      early := NotifySpends(spends);
      forall t ensures t in spends <==> SpentInPool(pool, RequestsFor(c, ops), t) {
        SpendsMade(c, ops, pool, t, spends);
      }
    }

    static method PoolSpends(ops: seq<OutPoint>, pool: OutPoint -> Option<Tx>) returns (spends: set<Tx>)
      ensures forall t :: t in spends <==> exists o :: o in ops && pool(o) == Some(t)
    {
      spends := {};
      for i := 0 to |ops|
        invariant forall t :: t in spends <==> exists o :: o in ops[..i] && pool(o) == Some(t)
      {
        assert ops[..i + 1] == ops[..i] + [ops[i]];
        if pool(ops[i]).Some? { spends := spends + {pool(ops[i]).value}; }
      }
      assert ops[..|ops|] == ops;
    }

    /** Tell the watchers of everything that these transactions spend. */
    method NotifySpends(spends: set<Tx>) returns (early: seq<Notice>)
      requires Valid()
      modifies spent
      ensures Valid() && spent.Pairs() == old(spent.Pairs())
      ensures forall c, t :: Notice(c, t) in early <==> t in spends && Touched(spent.Pairs(), c, t)
    {
      early := [];
      var todo := spends;
      while todo != {}
        invariant Valid() && todo <= spends && spent.Pairs() == old(spent.Pairs())
        invariant forall c, t :: Notice(c, t) in early <==> t in spends && t !in todo && Touched(spent.Pairs(), c, t)
        decreases |todo|
      {
        var t :| t in todo;
        var sent := NotifyForTxIns(t, false);
        early := early + NoticesOf(sent, t);
        todo := todo - {t};
      }
    }

    /** Put one outpoint on watch for some clients. */
    method WatchFor(clients: set<Client>, o: OutPoint, pool: OutPoint -> Option<Tx>) returns (early: seq<Notice>)
      requires Valid() && PoolOk(pool)
      modifies spent
      ensures Valid() && spent.Pairs() == old(spent.Pairs()) + ForAll(clients, o)
      ensures EarlyFor(early, pool, ForAll(clients, o), spent.Pairs())
    {
      early := [];
      var todo := clients;
      while todo != {}
        invariant Valid() && todo <= clients
        invariant spent.Pairs() == old(spent.Pairs()) + ForAll(clients - todo, o)
        invariant EarlyFor(early, pool, ForAll(clients - todo, o), spent.Pairs())
        decreases |todo|
      {
        var c :| c in todo;
        ghost var before := spent.Pairs();
        var more := AddSpentRequests(c, [o], pool);
        EarlyJoin(pool, early, ForAll(clients - todo, o), before, more, RequestsFor(c, [o]));
        ForAllNext(clients, todo, c, o);
        early, todo := early + more, todo - {c};
      }
      assert clients - todo == clients;
    }

    /** One output: its payees' watchers are told, and watch it from now on. */
    method NotifyForOutput(o: OutPoint, payees: seq<Address>, sent: seq<Client>, ghost keys: seq<Address>,
                           pool: OutPoint -> Option<Tx>)
      returns (next: seq<Client>, early: seq<Notice>)
      requires Valid() && SentFor(sent, addrs.Pairs(), keys) && PoolOk(pool)
      modifies spent
      ensures Valid() && spent.Pairs() == old(spent.Pairs()) + Paying(addrs.Pairs(), payees, o)
      ensures SentFor(next, addrs.Pairs(), keys + payees)
      ensures EarlyFor(early, pool, Paying(addrs.Pairs(), payees, o), spent.Pairs())
    {
      next, early := sent, [];
      assert keys + payees[..0] == keys;
      for j := 0 to |payees|
        invariant Valid() && spent.Pairs() == old(spent.Pairs()) + Paying(addrs.Pairs(), payees[..j], o)
        invariant SentFor(next, addrs.Pairs(), keys + payees[..j])
        invariant EarlyFor(early, pool, Paying(addrs.Pairs(), payees[..j], o), spent.Pairs())
      {
        var a := payees[j];
        assert payees[..j + 1] == payees[..j] + [a] && keys + payees[..j + 1] == (keys + payees[..j]) + [a];
        ghost var before := spent.Pairs();
        var more: seq<Notice> := [];
        if a in addrs.watchers {
          next, more := NotifyPayee(o, a, next, keys + payees[..j], pool);
        } else {
          NobodyPaid(addrs.watchers, addrs.requests, a, o, next, keys + payees[..j]);
        }
        EarlyJoin(pool, early, Paying(addrs.Pairs(), payees[..j], o), before, more, Paying(addrs.Pairs(), [a], o));
        PayingNext(addrs.Pairs(), payees[..j], a, o);
        early := early + more;
      }
      assert payees[..|payees|] == payees;
    }

    method NotifyPayee(o: OutPoint, a: Address, sent: seq<Client>, ghost keys: seq<Address>,
                       pool: OutPoint -> Option<Tx>)
      returns (next: seq<Client>, early: seq<Notice>)
      requires Valid() && a in addrs.watchers && SentFor(sent, addrs.Pairs(), keys) && PoolOk(pool)
      modifies spent
      ensures Valid() && spent.Pairs() == old(spent.Pairs()) + Paying(addrs.Pairs(), [a], o)
      ensures SentFor(next, addrs.Pairs(), keys + [a])
      ensures EarlyFor(early, pool, Paying(addrs.Pairs(), [a], o), spent.Pairs())
    {
      var clients := addrs.watchers[a];
      forall c ensures c in clients <==> Request(c, a) in addrs.Pairs() {
        assert Watched(addrs.watchers, c, a) <==> Asked(addrs.requests, c, a);
      }
      PayingWatchers(addrs.Pairs(), a, o, clients);
      early := WatchFor(clients, o, pool);
      next := NotifyOnce(sent, clients);
      SentForNext(sent, next, addrs.Pairs(), keys, a, clients);
    }

    /** Tell the watchers of paid addresses, once each, and put the outpoints on watch for them; if
        the mempool spends one of these already, tell its watchers of that too. */
    method NotifyForTxOuts(tx: Tx, pool: OutPoint -> Option<Tx>) returns (sent: seq<Client>, early: seq<Notice>)
      requires Valid() && PoolOk(pool)
      modifies spent
      ensures Valid() && spent.Pairs() == old(spent.Pairs()) + Created(addrs.Pairs(), tx, |tx.outputs|)
      ensures SentFor(sent, addrs.Pairs(), Payees(tx, |tx.outputs|))
      ensures EarlyFor(early, pool, Created(addrs.Pairs(), tx, |tx.outputs|), spent.Pairs())
    {
      sent, early := [], [];
      for i := 0 to |tx.outputs|
        invariant Valid() && spent.Pairs() == old(spent.Pairs()) + Created(addrs.Pairs(), tx, i)
        invariant SentFor(sent, addrs.Pairs(), Payees(tx, i))
        invariant EarlyFor(early, pool, Created(addrs.Pairs(), tx, i), spent.Pairs())
      {
        ghost var before := spent.Pairs();
        var o := OutPoint(tx.id, i);
        var more;
        sent, more := NotifyForOutput(o, tx.outputs[i], sent, Payees(tx, i), pool);
        EarlyJoin(pool, early, Created(addrs.Pairs(), tx, i), before, more, Paying(addrs.Pairs(), tx.outputs[i], o));
        early := early + more;
      }
    }

    /** One transaction of a connected block, or one accepted to the mempool. */
    method NotifyForTx(tx: Tx, connected: bool, pool: OutPoint -> Option<Tx>)
      returns (redeemed: seq<Client>, received: seq<Client>, early: seq<Notice>)
      requires Valid() && PoolOk(pool)
      modifies spent
      ensures Valid() && spent.Pairs() == AfterTx(old(spent.Pairs()), addrs.Pairs(), tx, connected)
      ensures SentFor(redeemed, old(spent.Pairs()), tx.inputs)
      ensures SentFor(received, addrs.Pairs(), Payees(tx, |tx.outputs|))
      ensures EarlyFor(early, pool, Created(addrs.Pairs(), tx, |tx.outputs|), spent.Pairs())
    {
      redeemed := NotifyForTxIns(tx, connected);
      received, early := NotifyForTxOuts(tx, pool);
    }

    /** A block; the mempool may be another one at each of its transactions. */
    method BlockConnected(txs: seq<Tx>, pools: nat -> OutPoint -> Option<Tx>)
      requires Valid() && forall i :: PoolOk(pools(i))
      modifies spent
      ensures Valid() && spent.Pairs() == AfterTxs(old(spent.Pairs()), addrs.Pairs(), txs)
    {
      if spent.watchers == map[] && addrs.watchers == map[] {
        EmptyIndex(spent.watchers, spent.requests);
        EmptyIndex(addrs.watchers, addrs.requests);
        NobodyWatching(addrs.Pairs(), txs);
        return;
      }
      for i := 0 to |txs|
        invariant Valid() && spent.Pairs() == AfterTxs(old(spent.Pairs()), addrs.Pairs(), txs[..i])
      {
        assert txs[..i + 1][..i] == txs[..i];
        var _, _, _ := NotifyForTx(txs[i], true, pools(i));
      }
      assert txs[..|txs|] == txs;
    }

    method AddAddrRequests(c: Client, watched: seq<Address>)
      requires Valid()
      modifies addrs
      ensures Valid() && addrs.Pairs() == old(addrs.Pairs()) + RequestsFor(c, watched)
    {
      for i := 0 to |watched|
        invariant Valid() && addrs.Pairs() == old(addrs.Pairs()) + RequestsFor(c, watched[..i])
      {
        addrs.Add(c, watched[i]);
        assert watched[..i + 1] == watched[..i] + [watched[i]];
      }
      assert watched[..|watched|] == watched;
    }

    ghost function View(): Watch
      reads this, spent, addrs
    {
      Watch(spent.Pairs(), addrs.Pairs())
    }

    /** Every event leaves exactly what it should on watch. */
    method Handle(e: Event, pool: OutPoint -> Option<Tx>)
      requires Valid() && PoolOk(pool)
      modifies spent, addrs
      ensures Valid() && View() == Next(old(View()), e)
    {
      match e
      case Mined(tx) => var _, _, _ := NotifyForTx(tx, true, pool);
      case Pooled(tx) => var _, _, _ := NotifyForTx(tx, false, pool);
      case WatchOutPoints(c, ops) => var _ := AddSpentRequests(c, ops, pool);
      case UnwatchOutPoint(c, o) => spent.Remove(c, o);
      case WatchAddresses(c, watched) => AddAddrRequests(c, watched);
      case UnwatchAddress(c, a) => addrs.Remove(c, a);
      case Leaves(c) => UnregisterClient(c);
    }

    /** A client goes: nothing is watched for it any more. */
    method UnregisterClient(c: Client)
      requires Valid()
      modifies spent, addrs
      ensures Valid()
      ensures spent.Pairs() == set r | r in old(spent.Pairs()) && r.client != c
      ensures addrs.Pairs() == set r | r in old(addrs.Pairs()) && r.client != c
      ensures (forall o :: !Watched(spent.watchers, c, o)) && forall a :: !Watched(addrs.watchers, c, a)
    {
      spent.RemoveClient(c);
      addrs.RemoveClient(c);
    }
  }
}
