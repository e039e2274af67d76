/** Bounded replay protection for Direct delivery: a map from delivery keys to entries and
    a list of the committed ones, oldest first. A key is reserved while its mailbox append
    is under way and remembered for `ttl` after the append succeeded. */
module ReplayWindow {
  import opened Framing

  datatype Entry = Pending | Committed(expires: int)

  datatype Window = Window(entries: map<Bytes, Entry>, order: seq<Bytes>, max: nat, ttl: int)

  function New(max: nat, ttl: int): Window {
    Window(map[], [], max, ttl)
  }

  /** The list holds exactly the committed keys, once each. */
  ghost predicate Wf(w: Window) {
    && w.max > 0 && w.ttl > 0
    && (forall i :: 0 <= i < |w.order| ==> w.order[i] in w.entries && w.entries[w.order[i]].Committed?)
    && (forall i, j :: 0 <= i < j < |w.order| ==> w.order[i] != w.order[j])
    && (forall k :: k in w.entries && w.entries[k].Committed? ==> k in w.order)
  }

  /** Every listed key has an entry, and is listed once. */
  ghost predicate Listed(w: Window) {
    && (forall i :: 0 <= i < |w.order| ==> w.order[i] in w.entries)
    && (forall i, j :: 0 <= i < j < |w.order| ==> w.order[i] != w.order[j])
  }

  function Without(s: seq<Bytes>, key: Bytes): seq<Bytes> {
    if s == [] then [] else if s[0] == key then s[1..] else [s[0]] + Without(s[1..], key)
  }

  /** Forget a key, in the map and in the list. */
  function Remove(w: Window, key: Bytes): Window {
    w.(entries := w.entries - {key}, order := Without(w.order, key))
  }

  function RemoveFront(w: Window): Window
    requires w.order != []
  {
    w.(entries := w.entries - {w.order[0]}, order := w.order[1..])
  }

  /** Drop expired entries from the front of the list, stopping at the first live one. */
  function Prune(w: Window, now: int): (r: Window)
    requires Wf(w)
    ensures r.max == w.max && r.ttl == w.ttl
    decreases |w.order|
  {
    if w.order == [] || now < w.entries[w.order[0]].expires then w
    else
      RemoveFrontWf(w);
      Prune(RemoveFront(w), now)
  }

  /** Make room by dropping committed entries, oldest first; reservations are never dropped. */
  function Evict(w: Window): (r: Window)
    ensures r.max == w.max && r.ttl == w.ttl
    decreases |w.order|
  {
    if |w.entries| <= w.max || w.order == [] then w else Evict(RemoveFront(w))
  }

  datatype Reservation = Granted | Duplicate | InProgress

  function Begin(w: Window, key: Bytes, now: int): (Window, Reservation)
    requires Wf(w)
  {
    if key == [] then (w, Granted)
    else
      var p := Prune(w, now);
      if key !in p.entries then (Reserve(p, key), Granted)
      else if p.entries[key].Pending? then (p, InProgress)
      else if now < p.entries[key].expires then (p, Duplicate)
      else (Reserve(Remove(p, key), key), Granted)
  }

  function Commit(w: Window, key: Bytes, now: int): Window {
    w.(entries := w.entries[key := Committed(now + w.ttl)], order := w.order + [key])
  }

  function Finish(w: Window, key: Bytes, committed: bool, now: int): Window
    requires Wf(w)
  {
    if key == [] || key !in w.entries || !w.entries[key].Pending? then w
    else if !committed then w.(entries := w.entries - {key})
    else
      CommitWf(w, key, now);
      Evict(Prune(Commit(w, key, now), now))
  }

  // ------------------------------------------------------------ structure

  lemma {:induction false} WithoutMembers(s: seq<Bytes>, key: Bytes)
    requires forall i, j :: 0 <= i < j < |s| ==> s[i] != s[j]
    ensures forall k :: k in Without(s, key) <==> k in s && k != key
    ensures forall i, j :: 0 <= i < j < |Without(s, key)| ==> Without(s, key)[i] != Without(s, key)[j]
    ensures |Without(s, key)| <= |s|
  {
    if s != [] && s[0] != key {
      WithoutMembers(s[1..], key);
      assert s[0] !in s[1..];
      assert s[0] !in Without(s[1..], key);
    }
  }

  lemma RemoveWf(w: Window, key: Bytes)
    requires Wf(w)
    ensures Wf(Remove(w, key))
  {
    WithoutMembers(w.order, key);
    var r := Remove(w, key);
    forall i | 0 <= i < |r.order| ensures r.order[i] in r.entries && r.entries[r.order[i]].Committed? {
      assert r.order[i] in w.order;
    }
  }

  lemma RemoveFrontWf(w: Window)
    requires Wf(w) && w.order != []
    ensures Wf(RemoveFront(w)) && Remove(w, w.order[0]) == RemoveFront(w)
  {
  }

  lemma CommitWf(w: Window, key: Bytes, now: int)
    requires Wf(w) && key in w.entries && w.entries[key].Pending?
    ensures Wf(Commit(w, key, now))
  {
  }

  lemma {:induction false} PruneWf(w: Window, now: int)
    requires Wf(w)
    ensures Wf(Prune(w, now))
    decreases |w.order|
  {
    if w.order != [] && w.entries[w.order[0]].expires <= now {
      RemoveFrontWf(w);
      PruneWf(RemoveFront(w), now);
    }
  }

  /** The clock never ran past an entry it has not yet reached: entries are listed in order
      of expiry, none expires later than `ttl` from now, and at most `max` are committed. */
  ghost predicate Inv(w: Window, clock: int) {
    Wf(w) && Sorted(w, clock) && |w.order| <= w.max
  }

  ghost predicate Sorted(w: Window, clock: int)
    requires Wf(w)
  {
    && (forall i, j :: 0 <= i <= j < |w.order| ==> Expiry(w, i) <= Expiry(w, j))
    && (forall i :: 0 <= i < |w.order| ==> Expiry(w, i) <= clock + w.ttl)
  }

  ghost function Expiry(w: Window, i: nat): int
    requires Wf(w) && i < |w.order|
  {
    w.entries[w.order[i]].expires
  }

  predicate LiveAt(e: Entry, now: int) {
    e.Pending? || now < e.expires
  }

  lemma {:induction false} PruneSorted(w: Window, now: int, clock: int)
    requires Wf(w) && Sorted(w, clock)
    ensures Wf(Prune(w, now)) && Sorted(Prune(w, now), clock)
    ensures |Prune(w, now).order| <= |w.order|
    decreases |w.order|
  {
    if w.order != [] && w.entries[w.order[0]].expires <= now {
      RemoveFrontSorted(w, clock);
      PruneSorted(RemoveFront(w), now, clock);
    }
  }

  lemma FrontExpiresFirst(w: Window, clock: int, k: Bytes)
    requires Wf(w) && Sorted(w, clock) && k in w.entries && w.entries[k].Committed?
    ensures w.order != [] && w.entries[w.order[0]].expires <= w.entries[k].expires
  {
    var i :| 0 <= i < |w.order| && w.order[i] == k;
    assert Expiry(w, 0) <= Expiry(w, i);
  }

  /** Stopping at the first live entry is no loss while the list is sorted: pruning drops
      exactly the expired entries, and never a reservation. */
  lemma {:induction false} PruneExact(w: Window, now: int, clock: int, k: Bytes)
    requires Wf(w) && Sorted(w, clock)
    ensures k in Prune(w, now).entries <==> k in w.entries && LiveAt(w.entries[k], now)
    ensures k in Prune(w, now).entries ==> Prune(w, now).entries[k] == w.entries[k]
    decreases |w.order|
  {
    if k in w.entries && w.entries[k].Committed? {
      FrontExpiresFirst(w, clock, k);
    }
    if w.order != [] && w.entries[w.order[0]].expires <= now {
      RemoveFrontSorted(w, clock);
      PruneExact(RemoveFront(w), now, clock, k);
    }
  }

  lemma RemoveFrontSorted(w: Window, clock: int)
    requires Wf(w) && Sorted(w, clock) && w.order != []
    ensures Wf(RemoveFront(w)) && Sorted(RemoveFront(w), clock)
  {
    RemoveFrontWf(w);
    var r := RemoveFront(w);
    forall i | 0 <= i < |r.order| ensures Expiry(r, i) == Expiry(w, i + 1) {
      assert r.order[i] == w.order[i + 1] && w.order[i + 1] != w.order[0];
    }
    forall i, j | 0 <= i <= j < |r.order| ensures Expiry(r, i) <= Expiry(r, j) {
      assert Expiry(w, i + 1) <= Expiry(w, j + 1);
    }
  }

  /** How many entries have to go: the excess, as far as there are committed ones. */
  function Excess(w: Window): nat {
    if |w.entries| <= w.max then 0
    else if |w.entries| - w.max < |w.order| then |w.entries| - w.max
    else |w.order|
  }

  lemma RemoveCount(m: map<Bytes, Entry>, k: Bytes)
    requires k in m
    ensures |m - {k}| == |m| - 1
  {
    assert (m - {k}).Keys == m.Keys - {k};
    assert |(m - {k}).Keys| == |m - {k}| && |m.Keys| == |m|;
  }

  lemma RemoveFrontExcess(w: Window)
    requires Listed(w) && |w.entries| > w.max && w.order != []
    ensures Listed(RemoveFront(w)) && Excess(RemoveFront(w)) == Excess(w) - 1
  {
    RemoveCount(w.entries, w.order[0]);
  }

  /** Capacity eviction drops exactly the excess from the front of the list ... */
  lemma {:induction false} EvictOrder(w: Window)
    requires Listed(w)
    ensures Evict(w).order == w.order[Excess(w)..]
    decreases |w.order|
  {
    if |w.entries| > w.max && w.order != [] {
      RemoveFrontExcess(w);
      EvictOrder(RemoveFront(w));
      assert w.order[1..][Excess(w) - 1..] == w.order[Excess(w)..];
    }
  }

  /** ... and touches no other entry: reservations and younger commits keep theirs. */
  lemma {:induction false} EvictEntry(w: Window, k: Bytes)
    requires Listed(w)
    ensures k in Evict(w).entries <==> k in w.entries && k !in w.order[..Excess(w)]
    ensures k in Evict(w).entries ==> Evict(w).entries[k] == w.entries[k]
    decreases |w.order|
  {
    if |w.entries| > w.max && w.order != [] {
      RemoveFrontExcess(w);
      EvictEntry(RemoveFront(w), k);
      var n := Excess(w);
      assert w.order[..n] == [w.order[0]] + w.order[1..][..n - 1];
    }
  }

  lemma {:induction false} EvictInv(w: Window, clock: int)
    requires Wf(w) && Sorted(w, clock)
    ensures Inv(Evict(w), clock)
    decreases |w.order|
  {
    if |w.entries| > w.max && w.order != [] {
      RemoveFrontSorted(w, clock);
      EvictInv(RemoveFront(w), clock);
    } else {
      OrderFits(w);
    }
  }

  lemma OrderFits(w: Window)
    requires Wf(w)
    ensures |w.order| <= |w.entries|
  {
    DistinctCount(w.order, w.entries.Keys);
    assert |w.entries.Keys| == |w.entries|;
  }

  lemma {:induction false} DistinctCount(s: seq<Bytes>, keys: set<Bytes>)
    requires forall i, j :: 0 <= i < j < |s| ==> s[i] != s[j]
    requires forall i :: 0 <= i < |s| ==> s[i] in keys
    ensures |s| <= |keys|
  {
    if s != [] {
      assert forall i :: 0 <= i < |s[1..]| ==> s[1..][i] in keys - {s[0]};
      DistinctCount(s[1..], keys - {s[0]});
    }
  }

  lemma CommitSorted(w: Window, key: Bytes, now: int, clock: int)
    requires Inv(w, clock) && clock <= now && key in w.entries && w.entries[key].Pending?
    ensures Wf(Commit(w, key, now)) && Sorted(Commit(w, key, now), now)
  {
    CommitWf(w, key, now);
    var r := Commit(w, key, now);
    forall i | 0 <= i < |w.order| ensures Expiry(r, i) == Expiry(w, i) {
      assert r.order[i] == w.order[i] && w.order[i] != key;
    }
  }

  // ------------------------------------------------------------- one call

  lemma InvLater(w: Window, clock: int, now: int)
    requires Inv(w, clock) && clock <= now
    ensures Inv(w, now)
  {
  }

  function Reserve(w: Window, key: Bytes): Window {
    w.(entries := w.entries[key := Pending])
  }

  lemma ReserveInv(w: Window, key: Bytes, clock: int)
    requires Inv(w, clock) && key !in w.entries
    ensures Inv(Reserve(w, key), clock)
  {
    assert forall i :: 0 <= i < |w.order| ==> w.order[i] != key;
    assert forall i :: 0 <= i < |w.order| ==> Expiry(Reserve(w, key), i) == Expiry(w, i);
  }

  lemma BeginInv(w: Window, key: Bytes, now: int, clock: int)
    requires Inv(w, clock) && clock <= now
    ensures Inv(Begin(w, key, now).0, now)
  {
    InvLater(w, clock, now);
    if key != [] {
      PruneSorted(w, now, now);
      PruneExact(w, now, now, key);
      if key !in Prune(w, now).entries {
        ReserveInv(Prune(w, now), key, now);
      }
    }
  }

  lemma FinishInv(w: Window, key: Bytes, committed: bool, now: int, clock: int)
    requires Inv(w, clock) && clock <= now
    ensures Inv(Finish(w, key, committed, now), now)
  {
    InvLater(w, clock, now);
    if key != [] && key in w.entries && w.entries[key].Pending? {
      if committed {
        CommitSorted(w, key, now, clock);
        PruneSorted(Commit(w, key, now), now, now);
        EvictInv(Prune(Commit(w, key, now), now), now);
      } else {
        var r := Finish(w, key, committed, now);
        assert forall i :: 0 <= i < |w.order| ==> w.order[i] != key;
        assert forall i :: 0 <= i < |w.order| ==> Expiry(r, i) == Expiry(w, i);
      }
    }
  }

  // ------------------------------------------------------------------ runs

  datatype Event = Begins(key: Bytes, now: int) | Finishes(key: Bytes, committed: bool, now: int)

  lemma ReserveWf(w: Window, key: Bytes)
    requires Wf(w) && key !in w.entries
    ensures Wf(Reserve(w, key))
  {
  }

  lemma BeginWf(w: Window, key: Bytes, now: int)
    requires Wf(w)
    ensures Wf(Begin(w, key, now).0)
  {
    if key != [] {
      PruneWf(w, now);
      var p := Prune(w, now);
      if key !in p.entries {
        ReserveWf(p, key);
      } else {
        RemoveWf(p, key);
        ReserveWf(Remove(p, key), key);
      }
    }
  }

  lemma {:induction false} EvictWf(w: Window)
    requires Wf(w)
    ensures Wf(Evict(w))
    decreases |w.order|
  {
    if |w.entries| > w.max && w.order != [] {
      RemoveFrontWf(w);
      EvictWf(RemoveFront(w));
    }
  }

  lemma FinishWf(w: Window, key: Bytes, committed: bool, now: int)
    requires Wf(w)
    ensures Wf(Finish(w, key, committed, now))
  {
    if key != [] && key in w.entries && w.entries[key].Pending? && committed {
      CommitWf(w, key, now);
      PruneWf(Commit(w, key, now), now);
      EvictWf(Prune(Commit(w, key, now), now));
    }
  }

  function Step(w: Window, e: Event): (r: Window)
    requires Wf(w)
    ensures Wf(r)
  {
    match e
    case Begins(key, now) => BeginWf(w, key, now); Begin(w, key, now).0
    case Finishes(key, committed, now) => FinishWf(w, key, committed, now); Finish(w, key, committed, now)
  }

  function Run(w: Window, events: seq<Event>): (r: Window)
    requires Wf(w)
    ensures Wf(r)
    decreases events
  {
    if events == [] then w else Run(Step(w, events[0]), events[1..])
  }

  predicate NonDecreasing(clock: int, events: seq<Event>)
    decreases events
  {
    events == [] || (clock <= events[0].now && NonDecreasing(events[0].now, events[1..]))
  }

  function LastClock(clock: int, events: seq<Event>): int
    decreases events
  {
    if events == [] then clock else LastClock(events[0].now, events[1..])
  }

  lemma StepInv(w: Window, e: Event, clock: int)
    requires Inv(w, clock) && clock <= e.now
    ensures Inv(Step(w, e), e.now)
  {
    match e
    case Begins(key, now) => BeginInv(w, key, now, clock);
    case Finishes(key, committed, now) => FinishInv(w, key, committed, now, clock);
  }

  /** Over every run with a clock that does not go back, the list holds exactly the
      committed entries in order of expiry, and never more than `max` of them. */
  lemma {:induction false} RunInv(w: Window, events: seq<Event>, clock: int)
    requires Inv(w, clock) && NonDecreasing(clock, events)
    ensures Inv(Run(w, events), LastClock(clock, events))
    decreases events
  {
    if events != [] {
      StepInv(w, events[0], clock);
      RunInv(Step(w, events[0]), events[1..], events[0].now);
    }
  }

  predicate Reserved(w: Window, key: Bytes) {
    key in w.entries && w.entries[key].Pending?
  }

  lemma {:induction false} PruneKeepsReserved(w: Window, now: int, key: Bytes)
    requires Wf(w)
    ensures Reserved(Prune(w, now), key) <==> Reserved(w, key)
    decreases |w.order|
  {
    if w.order != [] && w.entries[w.order[0]].expires <= now {
      RemoveFrontWf(w);
      PruneKeepsReserved(RemoveFront(w), now, key);
    }
  }

  lemma EvictKeepsReserved(w: Window, key: Bytes)
    requires Wf(w)
    ensures Reserved(Evict(w), key) <==> Reserved(w, key)
  {
    EvictEntry(w, key);
    assert Reserved(w, key) ==> key !in w.order[..Excess(w)];
  }

  lemma {:induction false} PruneSubset(w: Window, now: int, k: Bytes)
    requires Wf(w)
    ensures k in Prune(w, now).entries ==> k in w.entries && Prune(w, now).entries[k] == w.entries[k]
    decreases |w.order|
  {
    if w.order != [] && w.entries[w.order[0]].expires <= now {
      RemoveFrontWf(w);
      PruneSubset(RemoveFront(w), now, k);
    }
  }

  predicate Remembered(w: Window, key: Bytes) {
    key in w.entries && w.entries[key].Committed?
  }

  /** A key is remembered only if a committed finish for it happened: no other call
      commits anything. */
  lemma StepRemembered(w: Window, e: Event, key: Bytes)
    requires Wf(w) && Remembered(Step(w, e), key)
    ensures Remembered(w, key) || (Closes(w, e) && e.committed && e.key == key)
  {
    match e
    case Begins(k, now) =>
      if k != [] { PruneSubset(w, now, key); }
    case Finishes(k, committed, now) =>
      if k != [] && Reserved(w, k) && committed {
        CommitWf(w, k, now);
        PruneWf(Commit(w, k, now), now);
        PruneSubset(Commit(w, k, now), now, key);
        EvictEntry(Prune(Commit(w, k, now), now), key);
      }
  }

  /** A begin that answers "duplicate" found the key remembered. */
  lemma DuplicateRemembered(w: Window, key: Bytes, now: int)
    requires Wf(w) && Begin(w, key, now).1 == Duplicate
    ensures Remembered(w, key)
  {
    PruneSubset(w, now, key);
  }

  predicate Grants(w: Window, e: Event)
    requires Wf(w)
  {
    e.Begins? && e.key != [] && Begin(w, e.key, e.now).1 == Granted
  }

  /** A finish counts when it closes a reservation. */
  predicate Closes(w: Window, e: Event) {
    e.Finishes? && e.key != [] && Reserved(w, e.key)
  }

  /** Only a granted begin opens a reservation and only its finish closes it, whatever else
      happens: not expiry, not capacity, not a begin for the same or another key. */
  lemma StepReserved(w: Window, e: Event, key: Bytes)
    requires Wf(w) && key != []
    ensures Grants(w, e) && e.key == key ==> !Reserved(w, key)
    ensures Reserved(Step(w, e), key) <==>
            (Grants(w, e) && e.key == key) || (Reserved(w, key) && !(Closes(w, e) && e.key == key))
  {
    match e
    case Begins(k, now) =>
      if k != [] { PruneKeepsReserved(w, now, key); }
    case Finishes(k, committed, now) =>
      if k != [] && Reserved(w, k) && committed {
        CommitWf(w, k, now);
        PruneWf(Commit(w, k, now), now);
        PruneKeepsReserved(Commit(w, k, now), now, key);
        EvictKeepsReserved(Prune(Commit(w, k, now), now), key);
      }
  }

  /** Grants minus closed reservations of one key over a run: the appends in flight. */
  function InFlight(w: Window, events: seq<Event>, key: Bytes): int
    requires Wf(w)
    decreases events
  {
    if events == [] then 0
    else
      (if Grants(w, events[0]) && events[0].key == key then 1 else 0) -
      (if Closes(w, events[0]) && events[0].key == key then 1 else 0) +
      InFlight(Step(w, events[0]), events[1..], key)
  }

  /** At most one append per key is in flight at any time: after any run the balance of
      grants and closes is one exactly when the key is reserved, and zero otherwise. */
  lemma {:induction false} AtMostOneInFlight(w: Window, events: seq<Event>, key: Bytes)
    requires Wf(w) && key != [] && !Reserved(w, key)
    ensures InFlight(w, events, key) == if Reserved(Run(w, events), key) then 1 else 0
    decreases events
  {
    InFlightBalance(w, events, key);
  }

  lemma {:induction false} InFlightBalance(w: Window, events: seq<Event>, key: Bytes)
    requires Wf(w) && key != []
    ensures InFlight(w, events, key) ==
            (if Reserved(Run(w, events), key) then 1 else 0) - (if Reserved(w, key) then 1 else 0)
    decreases events
  {
    if events != [] {
      StepReserved(w, events[0], key);
      InFlightBalance(Step(w, events[0]), events[1..], key);
    }
  }

  /** Until its finish, a reserved key answers "in progress" to every further begin. */
  lemma {:induction false} ReservedUntilFinish(w: Window, events: seq<Event>, key: Bytes, now: int)
    requires Wf(w) && key != [] && Reserved(w, key)
    requires forall i :: 0 <= i < |events| ==> !(events[i].Finishes? && events[i].key == key)
    ensures Begin(Run(w, events), key, now).1 == InProgress
    decreases events
  {
    if events == [] {
      PruneKeepsReserved(w, now, key);
    } else {
      StepReserved(w, events[0], key);
      ReservedUntilFinish(Step(w, events[0]), events[1..], key, now);
    }
  }

  /** The finish drops this key to make room. */
  predicate EvictedBy(w: Window, e: Event, key: Bytes)
    requires Wf(w)
  {
    e.Finishes? && e.committed && e.key != [] && Reserved(w, e.key) &&
    (CommitWf(w, e.key, e.now);
     var p := Prune(Commit(w, e.key, e.now), e.now);
     key in p.order[..Excess(p)])
  }

  lemma FinishKeepsCommitted(w: Window, e: Event, clock: int, key: Bytes, expires: int)
    requires Inv(w, clock) && clock <= e.now < expires && e.Finishes?
    requires key in w.entries && w.entries[key] == Committed(expires) && !EvictedBy(w, e, key)
    ensures key in Step(w, e).entries && Step(w, e).entries[key] == Committed(expires)
  {
    if e.key != [] && Reserved(w, e.key) && e.committed {
      CommitSorted(w, e.key, e.now, clock);
      var c := Commit(w, e.key, e.now);
      PruneSorted(c, e.now, e.now);
      PruneExact(c, e.now, e.now, key);
      EvictEntry(Prune(c, e.now), key);
    }
  }

  lemma BeginKeepsCommitted(w: Window, e: Event, clock: int, key: Bytes, expires: int)
    requires Inv(w, clock) && clock <= e.now < expires && e.Begins?
    requires key in w.entries && w.entries[key] == Committed(expires)
    ensures key in Step(w, e).entries && Step(w, e).entries[key] == Committed(expires)
    ensures e.key == key != [] ==> Begin(w, key, e.now).1 == Duplicate
  {
    PruneExact(w, e.now, clock, key);
    PruneExact(w, e.now, clock, e.key);
  }

  predicate NeverEvicted(w: Window, events: seq<Event>, key: Bytes)
    requires Wf(w)
    decreases events
  {
    events == [] || (!EvictedBy(w, events[0], key) && NeverEvicted(Step(w, events[0]), events[1..], key))
  }

  predicate GrantedIn(w: Window, events: seq<Event>, key: Bytes)
    requires Wf(w)
    decreases events
  {
    events != [] && ((Grants(w, events[0]) && events[0].key == key) || GrantedIn(Step(w, events[0]), events[1..], key))
  }

  /** Once committed, a key is not granted again before it expires, unless it was dropped
      for capacity. */
  lemma {:induction false} NoGrantBeforeExpiry(w: Window, events: seq<Event>, clock: int, key: Bytes, expires: int)
    requires Inv(w, clock) && NonDecreasing(clock, events) && LastClock(clock, events) < expires
    requires key != [] && key in w.entries && w.entries[key] == Committed(expires)
    requires NeverEvicted(w, events, key)
    ensures !GrantedIn(w, events, key)
    ensures key in Run(w, events).entries && Run(w, events).entries[key] == Committed(expires)
    decreases events
  {
    if events != [] {
      var e := events[0];
      LastClockLater(e.now, events[1..]);
      StepInv(w, e, clock);
      if e.Begins? {
        BeginKeepsCommitted(w, e, clock, key, expires);
      } else {
        FinishKeepsCommitted(w, e, clock, key, expires);
      }
      NoGrantBeforeExpiry(Step(w, e), events[1..], e.now, key, expires);
    }
  }

  lemma {:induction false} LastClockLater(clock: int, events: seq<Event>)
    requires NonDecreasing(clock, events)
    ensures clock <= LastClock(clock, events)
    decreases events
  {
    if events != [] { LastClockLater(events[0].now, events[1..]); }
  }

  /** A key that is neither reserved nor remembered, or whose time is over, is granted. */
  lemma GrantedWhenFree(w: Window, key: Bytes, now: int, clock: int)
    requires Inv(w, clock) && key != []
    requires key in w.entries ==> w.entries[key].Committed? && w.entries[key].expires <= now
    ensures Begin(w, key, now).1 == Granted && Reserved(Begin(w, key, now).0, key)
  {
    PruneSubset(w, now, key);
  }

  /** A delivery that failed leaves no trace of its key. */
  lemma FailedForgets(w: Window, key: Bytes, now: int)
    requires Wf(w) && key != [] && Reserved(w, key)
    ensures key !in Finish(w, key, false, now).entries && Finish(w, key, false, now).order == w.order
    ensures forall k :: k != key ==> (k in Finish(w, key, false, now).entries <==> k in w.entries)
  {
  }

  /** A committed finish at `now` leaves the key remembered until `now + ttl`, or evicts it
      at once because reservations alone fill the window. */
  lemma FinishCommits(w: Window, key: Bytes, now: int, clock: int)
    requires Inv(w, clock) && clock <= now && key != [] && Reserved(w, key)
    ensures var e := Finishes(key, true, now);
            if EvictedBy(w, e, key) then key !in Step(w, e).entries
            else key in Step(w, e).entries && Step(w, e).entries[key] == Committed(now + w.ttl)
  {
    CommitSorted(w, key, now, clock);
    var c := Commit(w, key, now);
    PruneSorted(c, now, now);
    PruneExact(c, now, now, key);
    EvictEntry(Prune(c, now), key);
  }

  // -------------------------------------------------------- the window itself

  class DirectReplayWindow {
    var entries: map<Bytes, Entry>
    var order: seq<Bytes>
    const max: nat
    const ttl: int

    ghost function View(): Window
      reads this
    {
      Window(entries, order, max, ttl)
    }

    ghost predicate Valid()
      reads this
    {
      Wf(View())
    }

    /** Missing limits are replaced by the defaults: 65536 entries, 24 hours. */
    constructor (limit: int, lifetime: int)
      ensures Valid() && entries == map[] && order == []
      ensures max == (if limit <= 0 then 65536 else limit)
      ensures ttl == (if lifetime <= 0 then 7200 * 12 * 1_000_000_000 else lifetime)
    {
      entries, order := map[], [];
      max := if limit <= 0 then 65536 else limit;
      ttl := if lifetime <= 0 then 7200 * 12 * 1_000_000_000 else lifetime;
    }

    method BeginKey(key: Bytes, now: int) returns (duplicate: bool, pending: bool)
      requires Valid()
      modifies this
      ensures Valid()
      ensures var (w, r) := Begin(old(View()), key, now);
              View() == w && duplicate == (r == Duplicate) && pending == (r == InProgress)
    {
      BeginWf(View(), key, now);
      if key == [] { return false, false; }
      PruneExpired(now);
      if key in entries {
        if entries[key].Pending? { return false, true; }
        if now < entries[key].expires { return true, false; }
        RemoveEntry(key);
      }
      entries := entries[key := Pending];
      return false, false;
    }

    method FinishKey(key: Bytes, committed: bool, now: int)
      requires Valid()
      modifies this
      ensures Valid()
      ensures View() == Finish(old(View()), key, committed, now)
    {
      if key == [] || key !in entries || !entries[key].Pending? { return; }
      if !committed {
        FinishWf(View(), key, committed, now);
        entries := entries - {key};
      } else {
        CommitEntry(key, now);
        PruneExpired(now);
        EvictExcess();
      }
    }

    method CommitEntry(key: Bytes, now: int)
      requires Valid() && key in entries && entries[key].Pending?
      modifies this
      ensures Valid()
      ensures View() == Commit(old(View()), key, now)
    {
      CommitWf(View(), key, now);
      entries := entries[key := Committed(now + ttl)];
      order := order + [key];
    }

    method EvictExcess()
      requires Valid()
      modifies this
      ensures Valid()
      ensures View() == Evict(old(View()))
    {
      while |entries| > max && |order| > 0
        invariant Valid()
        invariant Evict(View()) == Evict(old(View()))
        decreases |order|
      {
        RemoveFrontWf(View());
        RemoveEntry(order[0]);
      }
    }

    method PruneExpired(now: int)
      requires Valid()
      modifies this
      ensures Valid()
      ensures View() == Prune(old(View()), now)
    {
      while |order| > 0
        invariant Valid()
        invariant Prune(View(), now) == Prune(old(View()), now)
        decreases |order|
      {
        if now < entries[order[0]].expires { break; }
        RemoveFrontWf(View());
        RemoveEntry(order[0]);
      }
    }

    method RemoveEntry(key: Bytes)
      requires Valid()
      modifies this
      ensures Valid()
      ensures View() == Remove(old(View()), key)
    {
      RemoveWf(View(), key);
      entries := entries - {key};
      order := Without(order, key);
    }
  }
}
