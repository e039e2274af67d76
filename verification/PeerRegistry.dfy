/** The server's peer lists: outbound group counts, the peer limit and the routes to validators,
    kept by one handler while connections come and go on their own. */
module PeerRegistry {
  import opened Framing

  /** Connections are numbered in the order they are made. */
  datatype PeerId = PeerId(n: int)

  /** One connection. Ids are never reused; a validator of [] is no validator. */
  datatype Peer = Peer(id: PeerId, inbound: bool, persistent: bool, group: Bytes, validator: Bytes, versionKnown: bool)

  /** A peer as it is when it is announced: after the version exchange, and permanent only if
      this server made the connection. */
  predicate PeerOk(p: Peer) {
    p.versionKnown && (p.persistent ==> !p.inbound)
  }

  datatype Registry = Registry(listed: map<PeerId, Peer>, groups: map<Bytes, int>, routes: map<Bytes, Peer>)

  function GroupCount(groups: map<Bytes, int>, g: Bytes): int {
    if g in groups then groups[g] else 0
  }

  function Added(r: Registry, p: Peer): Registry {
    Registry(
      r.listed[p.id := p],
      if p.inbound then r.groups else r.groups[p.group := GroupCount(r.groups, p.group) + 1],
      if p.validator == [] then r.routes else r.routes[p.validator := p])
  }

  /** The listed, connected peers of a validator. */
  function Candidates(listed: map<PeerId, Peer>, connected: set<PeerId>, v: Bytes): set<PeerId> {
    set id | id in listed && id in connected && listed[id].validator == v
  }

  ghost predicate IsLeast(s: set<PeerId>, m: PeerId) {
    m in s && forall x :: x in s ==> m.n <= x.n
  }

  lemma {:induction false} LeastExists(s: set<PeerId>, y: PeerId)
    requires y in s
    ensures exists m :: IsLeast(s, m)
    decreases s
  {
    if z :| z in s && z.n < y.n {
      LeastExists(s - {y}, z);
      var m :| IsLeast(s - {y}, m);
      forall x | x in s ensures m.n <= x.n {
        assert m.n <= z.n && (x == y || x in s - {y});
      }
      assert IsLeast(s, m);
    } else {
      assert IsLeast(s, y);
    }
  }

  /** The routes once `p` is off the list: its own route passes to the connected peer of the
      same validator with the lowest id, if there is one; the others stay. */
  ghost function Reroute(routes: map<Bytes, Peer>, listed: map<PeerId, Peer>, connected: set<PeerId>,
                         p: Peer): map<Bytes, Peer>
  {
    if p.validator in routes && routes[p.validator] == p then
      var c := Candidates(listed, connected, p.validator);
      if m :| IsLeast(c, m) then routes[p.validator := listed[m]] else routes - {p.validator}
    else routes
  }

  ghost function Removed(r: Registry, connected: set<PeerId>, p: Peer): Registry {
    var listed := r.listed - {p.id};
    Registry(
      listed,
      if p.inbound then r.groups else r.groups[p.group := GroupCount(r.groups, p.group) - 1],
      Reroute(r.routes, listed, connected, p))
  }

  // -------------------------------------------------------------- invariant

  /** The outbound peers of a group. */
  function Members(listed: map<PeerId, Peer>, g: Bytes): set<PeerId> {
    set id | id in listed && !listed[id].inbound && listed[id].group == g
  }

  ghost predicate ListedOk(r: Registry, max: nat) {
    && (forall id :: id in r.listed ==> r.listed[id].id == id && PeerOk(r.listed[id]))
    && |r.listed| <= max
  }

  ghost predicate GroupsOk(r: Registry) {
    forall g :: GroupCount(r.groups, g) == |Members(r.listed, g)|
  }

  /** Every route leads to a listed peer of that validator, and every validator with a listed
      peer that is still connected has a route. */
  ghost predicate RoutesOk(r: Registry, connected: set<PeerId>) {
    && (forall v :: v in r.routes ==>
          v != [] && r.routes[v].validator == v && r.routes[v].id in r.listed &&
            r.listed[r.routes[v].id] == r.routes[v])
    && (forall id ::
         id in r.listed && id in connected && r.listed[id].validator != [] ==> r.listed[id].validator in r.routes)
  }

  ghost predicate RegistryOk(r: Registry, connected: set<PeerId>, max: nat) {
    ListedOk(r, max) && GroupsOk(r) && RoutesOk(r, connected)
  }

  /** The newest connection of a validator takes its route; other routes stay, and one peer more is
      listed. */
  lemma NewestRouted(r: Registry, p: Peer)
    requires p.id !in r.listed
    ensures var a := Added(r, p);
      && a.listed.Keys == r.listed.Keys + {p.id} && a.listed[p.id] == p
      && (forall id :: id in r.listed ==> a.listed[id] == r.listed[id])
      && (p.validator != [] ==> p.validator in a.routes && a.routes[p.validator] == p)
      && (forall v :: v != p.validator || p.validator == [] ==> (v in a.routes <==> v in r.routes))
      && (forall v :: v in r.routes && (v != p.validator || p.validator == []) ==> a.routes[v] == r.routes[v])
  {
  }

  /** A peer that leaves takes at most its own route along: a route that led to another peer, also
      of its validator, stays. */
  lemma OnlyItsRoute(r: Registry, connected: set<PeerId>, p: Peer, v: Bytes)
    requires v in r.routes && (v != p.validator || r.routes[v] != p)
    ensures var left := Removed(r, connected, p);
      v in left.routes && left.routes[v] == r.routes[v] && left.listed == r.listed - {p.id}
  {
  }

  lemma AddKeepsGroups(r: Registry, p: Peer)
    requires GroupsOk(r) && p.id !in r.listed
    ensures GroupsOk(Added(r, p))
  {
    var a := Added(r, p);
    forall g ensures GroupCount(a.groups, g) == |Members(a.listed, g)| {
      MembersAfterAdd(r.listed, p, g);
      assert GroupCount(r.groups, g) == |Members(r.listed, g)|;
    }
  }

  lemma AddKeepsRoutes(r: Registry, connected: set<PeerId>, p: Peer)
    requires RoutesOk(r, connected) && p.id !in r.listed
    ensures RoutesOk(Added(r, p), connected)
  {
  }

  lemma AddKeepsListed(r: Registry, max: nat, p: Peer)
    requires ListedOk(r, max) && p.id !in r.listed && |r.listed| < max && PeerOk(p)
    ensures ListedOk(Added(r, p), max)
  {
    assert Added(r, p).listed.Keys == r.listed.Keys + {p.id};
  }

  lemma AddKeepsOk(r: Registry, connected: set<PeerId>, max: nat, p: Peer)
    requires RegistryOk(r, connected, max) && p.id !in r.listed && |r.listed| < max && PeerOk(p)
    ensures RegistryOk(Added(r, p), connected, max)
  {
    AddKeepsListed(r, max, p);
    AddKeepsGroups(r, p);
    AddKeepsRoutes(r, connected, p);
  }

  lemma MembersAfterAdd(listed: map<PeerId, Peer>, p: Peer, g: Bytes)
    requires p.id !in listed
    ensures |Members(listed[p.id := p], g)| == |Members(listed, g)| + if !p.inbound && p.group == g then 1 else 0
  {
    var (was, now) := (Members(listed, g), Members(listed[p.id := p], g));
    if !p.inbound && p.group == g {
      assert now == was + {p.id};
    } else {
      assert now == was;
    }
  }

  lemma MembersAfterRemove(listed: map<PeerId, Peer>, p: Peer, g: Bytes)
    requires p.id in listed && listed[p.id] == p
    ensures |Members(listed - {p.id}, g)| == |Members(listed, g)| - if !p.inbound && p.group == g then 1 else 0
  {
    assert listed == (listed - {p.id})[p.id := p];
    MembersAfterAdd(listed - {p.id}, p, g);
  }

  lemma RemoveKeepsGroups(r: Registry, connected: set<PeerId>, p: Peer)
    requires GroupsOk(r) && p.id in r.listed && r.listed[p.id] == p
    ensures GroupsOk(Removed(r, connected, p))
  {
    var a := Removed(r, connected, p);
    forall g ensures GroupCount(a.groups, g) == |Members(a.listed, g)| {
      MembersAfterRemove(r.listed, p, g);
      assert GroupCount(r.groups, g) == |Members(r.listed, g)|;
    }
  }

  lemma RemoveKeepsRoutes(r: Registry, connected: set<PeerId>, max: nat, p: Peer)
    requires ListedOk(r, max) && RoutesOk(r, connected) && p.id in r.listed && r.listed[p.id] == p
    ensures RoutesOk(Removed(r, connected, p), connected)
  {
    var a := Removed(r, connected, p);
    forall v | v in a.routes
      ensures v != [] && a.routes[v].validator == v && a.routes[v].id in a.listed &&
        a.listed[a.routes[v].id] == a.routes[v]
    {
    }
    forall id | id in a.listed && id in connected && a.listed[id].validator != []
      ensures a.listed[id].validator in a.routes
    {
      LeastExists(Candidates(a.listed, connected, a.listed[id].validator), id);
    }
  }

  lemma RemoveKeepsOk(r: Registry, connected: set<PeerId>, max: nat, p: Peer)
    requires RegistryOk(r, connected, max) && p.id in r.listed && r.listed[p.id] == p
    ensures RegistryOk(Removed(r, connected, p), connected, max)
  {
    var a := Removed(r, connected, p);
    assert r.listed.Keys == a.listed.Keys + {p.id};
    RemoveKeepsGroups(r, connected, p);
    RemoveKeepsRoutes(r, connected, max, p);
  }

  /** Losing a connection cannot hurt: routes to it stay until it is taken off the list. */
  lemma LoseKeepsOk(r: Registry, connected: set<PeerId>, max: nat, id: PeerId)
    requires RegistryOk(r, connected, max)
    ensures RegistryOk(r, connected - {id}, max)
  {
  }

  // -------------------------------------------------------------- the class

  datatype Kind = Inbound | Outbound | Persistent

  function KindOf(p: Peer): Kind {
    if p.persistent then Persistent else if p.inbound then Inbound else Outbound
  }

  datatype Lists = Lists(inbound: map<PeerId, Peer>, outbound: map<PeerId, Peer>, persistent: map<PeerId, Peer>)

  function ListOf(l: Lists, k: Kind): map<PeerId, Peer> {
    match k case Inbound => l.inbound case Outbound => l.outbound case Persistent => l.persistent
  }

  ghost predicate ListOk(list: map<PeerId, Peer>, k: Kind) {
    forall id :: id in list ==> list[id].id == id && KindOf(list[id]) == k && PeerOk(list[id])
  }

  /** Every peer is in the list of its kind, and in no other. */
  ghost predicate ListsOk(l: Lists) {
    && ListOk(l.inbound, Inbound) && ListOk(l.outbound, Outbound) && ListOk(l.persistent, Persistent)
    && l.inbound.Keys !! l.outbound.Keys && l.inbound.Keys !! l.persistent.Keys && l.outbound.Keys !! l.persistent.Keys
  }

  function Union(l: Lists): map<PeerId, Peer> {
    l.inbound + l.outbound + l.persistent
  }

  function Put(l: Lists, p: Peer): Lists {
    match KindOf(p)
    case Inbound => l.(inbound := l.inbound[p.id := p])
    case Outbound => l.(outbound := l.outbound[p.id := p])
    case Persistent => l.(persistent := l.persistent[p.id := p])
  }

  function Take(l: Lists, p: Peer): Lists {
    match KindOf(p)
    case Inbound => l.(inbound := l.inbound - {p.id})
    case Outbound => l.(outbound := l.outbound - {p.id})
    case Persistent => l.(persistent := l.persistent - {p.id})
  }

  lemma PutKeepsLists(l: Lists, p: Peer)
    requires ListsOk(l) && PeerOk(p) && p.id !in Union(l)
    ensures ListsOk(Put(l, p))
  {
  }

  lemma PutUnion(l: Lists, p: Peer)
    requires p.id !in Union(l)
    ensures Union(Put(l, p)) == Union(l)[p.id := p]
  {
  }

  lemma TakeKeepsLists(l: Lists, p: Peer)
    requires ListsOk(l)
    ensures ListsOk(Take(l, p))
  {
  }

  lemma TakeUnion(l: Lists, p: Peer)
    requires ListsOk(l) && p.id in ListOf(l, KindOf(p))
    ensures Union(Take(l, p)) == Union(l) - {p.id}
  {
  }

  lemma UnionCount(l: Lists)
    requires ListsOk(l)
    ensures |l.inbound| + |l.outbound| + |l.persistent| == |Union(l)|
  {
    assert Union(l).Keys == l.inbound.Keys + l.outbound.Keys + l.persistent.Keys;
  }

  predicate Match(connected: set<PeerId>, v: Bytes, q: Peer) {
    q.validator == v && q.id in connected
  }

  /** `best` is the matching peer of lowest id among `from` and those of `list` that are not in
      `todo`, where `from` is what was found before. */
  ghost predicate Lowest(list: map<PeerId, Peer>, todo: set<Peer>, connected: set<PeerId>, v: Bytes,
                         from: Option<Peer>, best: Option<Peer>) {
    && (from.Some? ==> best.Some? && best.value.id.n <= from.value.id.n)
    && (best == from || (best.Some? && best.value in list.Values && Match(connected, v, best.value)))
    && (forall q ::
         q in list.Values && q !in todo && Match(connected, v, q) ==> best.Some? && best.value.id.n <= q.id.n)
  }

  lemma UnionValue(l: Lists, id: PeerId)
    requires ListsOk(l) && id in Union(l)
    ensures Union(l)[id].id == id
    ensures Union(l)[id] in l.inbound.Values || Union(l)[id] in l.outbound.Values || Union(l)[id] in l.persistent.Values
  {
    if id in l.persistent { assert l.persistent[id] in l.persistent.Values; }
    else if id in l.outbound { assert l.outbound[id] in l.outbound.Values; }
    else { assert l.inbound[id] in l.inbound.Values; }
  }

  lemma ValueInUnion(l: Lists, q: Peer)
    requires ListsOk(l) && (q in l.inbound.Values || q in l.outbound.Values || q in l.persistent.Values)
    ensures q.id in Union(l) && Union(l)[q.id] == q
  {
  }

  /** The route passes to the candidate with the lowest id, if there is one. */
  lemma RerouteTo(routes: map<Bytes, Peer>, listed: map<PeerId, Peer>, connected: set<PeerId>, p: Peer,
                  best: Option<Peer>)
    requires p.validator in routes && routes[p.validator] == p
    requires var c := Candidates(listed, connected, p.validator);
      match best
      case None => c == {}
      case Some(q) => IsLeast(c, q.id) && q.id in listed && listed[q.id] == q
    ensures var left := routes - {p.validator};
            Reroute(routes, listed, connected, p) == if best.None? then left else left[p.validator := best.value]
  {
    if best.Some? {
      assert routes[p.validator := best.value] == (routes - {p.validator})[p.validator := best.value];
    }
  }

  /** What three scans find is what the route passes to. */
  lemma LowestIsReroute(routes: map<Bytes, Peer>, l: Lists, connected: set<PeerId>, p: Peer,
                        b1: Option<Peer>, b2: Option<Peer>, b3: Option<Peer>)
    requires ListsOk(l) && p.validator in routes && routes[p.validator] == p
    requires Lowest(l.inbound, {}, connected, p.validator, None, b1)
    requires Lowest(l.outbound, {}, connected, p.validator, b1, b2)
    requires Lowest(l.persistent, {}, connected, p.validator, b2, b3)
    ensures var left := routes - {p.validator};
            Reroute(routes, Union(l), connected, p) == if b3.None? then left else left[p.validator := b3.value]
  {
    var c := Candidates(Union(l), connected, p.validator);
    forall id | id in c ensures b3.Some? && b3.value.id.n <= id.n {
      UnionValue(l, id);
    }
    if b3.Some? {
      ValueInUnion(l, b3.value);
      assert IsLeast(c, b3.value.id);
    }
    RerouteTo(routes, Union(l), connected, p, b3);
  }

  lemma ListedIn(l: Lists, k: Kind, q: Peer)
    requires ListsOk(l) && q in ListOf(l, k).Values
    ensures q.id in Union(l) && Union(l)[q.id] == q && KindOf(q) == k
  {
    ValueInUnion(l, q);
  }

  /** Some matching peers are gone, and nothing else. */
  ghost predicate Thinned(cmp: Peer -> bool, was: map<PeerId, Peer>, now: map<PeerId, Peer>) {
    && (forall id :: id in now ==> id in was && now[id] == was[id])
    && (forall id :: id in was && !cmp(was[id]) ==> id in now)
  }

  lemma ThinnedStep(cmp: Peer -> bool, was: map<PeerId, Peer>, now: map<PeerId, Peer>, q: Peer)
    requires Thinned(cmp, was, now) && ListOk(now, Outbound) && q in now.Values && cmp(q)
    ensures Thinned(cmp, was, now - {q.id}) && |now - {q.id}| < |now|
  {
    assert q.id in now && now[q.id] == q;
    assert now.Keys == (now - {q.id}).Keys + {q.id};
  }

  lemma ThinnedOut(cmp: Peer -> bool, was: map<PeerId, Peer>, now: map<PeerId, Peer>)
    requires Thinned(cmp, was, now) && forall q :: q in now.Values ==> !cmp(q)
    ensures now == map id | id in was && !cmp(was[id]) :: was[id]
  {
    assert forall id :: id in now ==> now[id] in now.Values;
  }

  /** The three lists, with `connected` standing for the flag each connection keeps. */
  class PeerState {
    const maxPeers: nat
    var inbound: map<PeerId, Peer>
    var outbound: map<PeerId, Peer>
    var persistent: map<PeerId, Peer>
    var groups: map<Bytes, int>
    var routes: map<Bytes, Peer>
    var connected: set<PeerId>

    constructor (max: nat)
      ensures ListsOk(AllLists()) && View() == Registry(map[], map[], map[]) && maxPeers == max && connected == {}
    {
      maxPeers := max;
      inbound, outbound, persistent := map[], map[], map[];
      groups, routes, connected := map[], map[], {};
    }

    function AllLists(): Lists
      reads this`inbound, this`outbound, this`persistent
    {
      Lists(inbound, outbound, persistent)
    }

    ghost function View(): Registry
      reads this
    {
      Registry(Union(AllLists()), groups, routes)
    }

    function Count(): (n: nat)
      requires ListsOk(AllLists())
      reads this
      ensures n == |View().listed|
    {
      UnionCount(AllLists());
      |inbound| + |outbound| + |persistent|
    }

    /** Add an announced peer, unless it is gone, refused, or one too many. */
    method AddPeer(p: Peer, refused: bool) returns (added: bool)
      requires ListsOk(AllLists()) && PeerOk(p) && p.id !in View().listed
      modifies this
      ensures ListsOk(AllLists())
      ensures added <==> p.id in old(connected) && !refused && |old(View()).listed| < maxPeers
      ensures View() == if added then Added(old(View()), p) else old(View())
      ensures connected == if p.id in old(connected) && !added then old(connected) - {p.id} else old(connected)
    {
      if p.id !in connected { return false; }
      if refused || Count() >= maxPeers {
        connected := connected - {p.id};
        return false;
      }
      Enlist(p);
      return true;
    }

    method Enlist(p: Peer)
      requires ListsOk(AllLists()) && PeerOk(p) && p.id !in Union(AllLists())
      modifies this`inbound, this`outbound, this`persistent, this`groups, this`routes
      ensures ListsOk(AllLists()) && View() == Added(old(View()), p)
    {
      PutInList(p);
      if !p.inbound {
        groups := groups[p.group := GroupCount(groups, p.group) + 1];
      }
      if p.validator != [] {
        routes := routes[p.validator := p];
      }
    }

    method PutInList(p: Peer)
      requires ListsOk(AllLists()) && PeerOk(p) && p.id !in Union(AllLists())
      modifies this`inbound, this`outbound, this`persistent
      ensures ListsOk(AllLists()) && Union(AllLists()) == old(Union(AllLists()))[p.id := p]
    {
      PutKeepsLists(AllLists(), p);
      PutUnion(AllLists(), p);
      match KindOf(p)
      case Inbound => inbound := inbound[p.id := p];
      case Outbound => outbound := outbound[p.id := p];
      case Persistent => persistent := persistent[p.id := p];
    }

    method TakeFromList(p: Peer)
      requires ListsOk(AllLists()) && p.id in ListOf(AllLists(), KindOf(p))
      modifies this`inbound, this`outbound, this`persistent
      ensures ListsOk(AllLists()) && Union(AllLists()) == old(Union(AllLists())) - {p.id}
      ensures AllLists() == Take(old(AllLists()), p)
    {
      TakeKeepsLists(AllLists(), p);
      TakeUnion(AllLists(), p);
      match KindOf(p)
      case Inbound => inbound := inbound - {p.id};
      case Outbound => outbound := outbound - {p.id};
      case Persistent => persistent := persistent - {p.id};
    }

    /** Handle the report that a connection has ended, whether it is still listed or not. */
    method DonePeer(p: Peer)
      requires ListsOk(AllLists()) && PeerOk(p) && (p.id in View().listed ==> View().listed[p.id] == p)
      modifies this`inbound, this`outbound, this`persistent, this`groups, this`routes
      ensures ListsOk(AllLists())
      ensures View() == if p.id in old(View()).listed then Removed(old(View()), connected, p) else old(View())
    {
      if p.id in ListOf(AllLists(), KindOf(p)) {
        if !p.inbound && p.versionKnown {
          groups := groups[p.group := GroupCount(groups, p.group) - 1];
        }
        TakeFromList(p);
        RemoveMinerRoute(p);
      }
    }

    /** Give up the route of a peer that has left its list. */
    method RemoveMinerRoute(p: Peer)
      requires ListsOk(AllLists()) && p.id !in View().listed
      modifies this`routes
      ensures routes == Reroute(old(routes), View().listed, connected, p)
    {
      if p.validator in routes && routes[p.validator] == p {
        var b1 := ScanList(inbound, connected, p, None);
        var b2 := ScanList(outbound, connected, p, b1);
        var best := ScanList(persistent, connected, p, b2);
        LowestIsReroute(routes, AllLists(), connected, p, b1, b2, best);
        routes := routes - {p.validator};
        if best.Some? {
          routes := routes[p.validator := best.value];
        }
      }
    }

    /** Drop one peer of a list that matches, whichever comes first. */
    method DisconnectPeer(k: Kind, cmp: Peer -> bool) returns (dropped: Option<Peer>)
      requires ListsOk(AllLists())
      modifies this
      ensures ListsOk(AllLists())
      ensures dropped.None? ==>
        && AllLists() == old(AllLists()) && View() == old(View()) && connected == old(connected)
        && forall q :: q in ListOf(AllLists(), k).Values ==> !cmp(q)
      ensures dropped.Some? ==>
        && cmp(dropped.value) && dropped.value in old(ListOf(AllLists(), k)).Values
        && AllLists() == Take(old(AllLists()), dropped.value)
        && View() == Removed(old(View()), old(connected), dropped.value) &&
             connected == old(connected) - {dropped.value.id}
    {
      dropped := FindMatch(ListOf(AllLists(), k), cmp);
      if dropped.Some? {
        Unlist(dropped.value);
        connected := connected - {dropped.value.id};
      }
    }

    static method FindMatch(list: map<PeerId, Peer>, cmp: Peer -> bool) returns (m: Option<Peer>)
      ensures m.None? ==> forall q :: q in list.Values ==> !cmp(q)
      ensures m.Some? ==> m.value in list.Values && cmp(m.value)
    {
      var todo := list.Values;
      while todo != {}
        invariant todo <= list.Values && forall q :: q in list.Values && q !in todo ==> !cmp(q)
        decreases |todo|
      {
        var p :| p in todo;
        if cmp(p) { return Some(p); }
        todo := todo - {p};
      }
      return None;
    }

    method Unlist(p: Peer)
      requires ListsOk(AllLists()) && p in ListOf(AllLists(), KindOf(p)).Values
      modifies this`inbound, this`outbound, this`persistent, this`groups, this`routes
      ensures ListsOk(AllLists()) && AllLists() == Take(old(AllLists()), p)
      ensures View() == Removed(old(View()), connected, p)
    {
      if !p.inbound {
        groups := groups[p.group := GroupCount(groups, p.group) - 1];
      }
      TakeFromList(p);
      RemoveMinerRoute(p);
    }

    /** An operator removes a permanent peer. */
    method RemoveNode(cmp: Peer -> bool) returns (found: bool)
      requires ListsOk(AllLists()) && RegistryOk(View(), connected, maxPeers)
      modifies this
      ensures ListsOk(AllLists()) && RegistryOk(View(), connected, maxPeers)
      ensures found <==> exists q :: q in old(persistent).Values && cmp(q)
      ensures inbound == old(inbound) && outbound == old(outbound)
      ensures !found ==> View() == old(View())
      ensures found ==> exists q :: q in old(persistent).Values && cmp(q) && persistent == old(persistent) - {q.id}
    {
      var dropped := Dropping(Persistent, cmp);
      return dropped.Some?;
    }

    /** Dropping keeps the registry in order. */
    method Dropping(k: Kind, cmp: Peer -> bool) returns (dropped: Option<Peer>)
      requires ListsOk(AllLists()) && RegistryOk(View(), connected, maxPeers)
      modifies this
      ensures ListsOk(AllLists()) && RegistryOk(View(), connected, maxPeers)
      ensures dropped.None? ==>
        && AllLists() == old(AllLists()) && View() == old(View())
        && forall q :: q in ListOf(AllLists(), k).Values ==> !cmp(q)
      ensures dropped.Some? ==>
        && cmp(dropped.value) && dropped.value in old(ListOf(AllLists(), k)).Values
        && AllLists() == Take(old(AllLists()), dropped.value) && KindOf(dropped.value) == k
    {
      dropped := DisconnectPeer(k, cmp);
      if dropped.Some? {
        ListedIn(old(AllLists()), k, dropped.value);
        RemoveKeepsOk(old(View()), old(connected), maxPeers, dropped.value);
        LoseKeepsOk(View(), old(connected), maxPeers, dropped.value.id);
      }
    }

    /** Drop matching outbound peers until none is left. */
    method DropAllOutbound(cmp: Peer -> bool) returns (found: bool)
      requires ListsOk(AllLists()) && RegistryOk(View(), connected, maxPeers)
      modifies this
      ensures ListsOk(AllLists()) && RegistryOk(View(), connected, maxPeers)
      ensures inbound == old(inbound) && persistent == old(persistent)
      ensures found <==> exists q :: q in old(outbound).Values && cmp(q)
      ensures outbound == map id | id in old(outbound) && !cmp(old(outbound)[id]) :: old(outbound)[id]
    {
      var dropped := DropOutbound(cmp, outbound);
      found := dropped;
      while dropped
        invariant ListsOk(AllLists()) && RegistryOk(View(), connected, maxPeers)
        invariant persistent == old(persistent) && inbound == old(inbound)
        invariant Thinned(cmp, old(outbound), outbound)
        invariant !dropped ==> forall q :: q in outbound.Values ==> !cmp(q)
        decreases |outbound| + if dropped then 1 else 0
      {
        dropped := DropOutbound(cmp, old(outbound));
      }
      ThinnedOut(cmp, old(outbound), outbound);
    }

    method DropOutbound(cmp: Peer -> bool, ghost was: map<PeerId, Peer>) returns (dropped: bool)
      requires ListsOk(AllLists()) && RegistryOk(View(), connected, maxPeers) && Thinned(cmp, was, outbound)
      modifies this
      ensures ListsOk(AllLists()) && RegistryOk(View(), connected, maxPeers)
      ensures inbound == old(inbound) && persistent == old(persistent) && Thinned(cmp, was, outbound)
      ensures if dropped then |outbound| < |old(outbound)| else outbound == old(outbound)
      ensures dropped <==> exists q :: q in old(outbound).Values && cmp(q)
    {
      var d := Dropping(Outbound, cmp);
      if d.Some? {
        ThinnedStep(cmp, was, old(outbound), d.value);
      }
      return d.Some?;
    }

    /** An operator disconnects one matching inbound peer or, if there is none, every matching
        outbound peer. */
    method DisconnectNode(cmp: Peer -> bool) returns (found: bool)
      requires ListsOk(AllLists()) && RegistryOk(View(), connected, maxPeers)
      modifies this
      ensures ListsOk(AllLists()) && RegistryOk(View(), connected, maxPeers)
      ensures persistent == old(persistent)
      ensures found <==>
        (exists q :: q in old(inbound).Values && cmp(q)) || (exists q :: q in old(outbound).Values && cmp(q))
      ensures (exists q :: q in old(inbound).Values && cmp(q)) ==>
        outbound == old(outbound) && exists q :: q in old(inbound).Values && cmp(q) && inbound == old(inbound) - {q.id}
      ensures !(exists q :: q in old(inbound).Values && cmp(q)) ==>
        inbound == old(inbound) && outbound == map id | id in old(outbound) && !cmp(old(outbound)[id]) ::
          old(outbound)[id]
    {
      var dropped := Dropping(Inbound, cmp);
      if dropped.Some? { return true; }
      found := DropAllOutbound(cmp);
    }

    /** Look for a connected peer of the same validator with a lower id than the one at hand. */
    static method ScanList(list: map<PeerId, Peer>, connected: set<PeerId>, p: Peer, from: Option<Peer>)
      returns (best: Option<Peer>)
      requires p !in list.Values
      ensures Lowest(list, {}, connected, p.validator, from, best)
    {
      best := from;
      var todo := list.Values;
      while todo != {}
        invariant todo <= list.Values
        invariant Lowest(list, todo, connected, p.validator, from, best)
        decreases |todo|
      {
        var candidate :| candidate in todo;
        if candidate != p && Match(connected, p.validator, candidate) &&
          (best.None? || candidate.id.n < best.value.id.n) {
          best := Some(candidate);
        }
        todo := todo - {candidate};
      }
    }
  }
}
