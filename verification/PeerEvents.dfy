/** The peer handler among the server's connections: every order in which they are announced,
    lost, reported closed and dropped. */
module PeerEvents {
  import opened PeerRegistry

  /** The registry among the connections of the server: those ever made, those still up, those
      announced once, and those reported closed. */
  datatype World = World(reg: Registry, peers: map<PeerId, Peer>, connected: set<PeerId>, announced: set<PeerId>,
    closed: set<PeerId>)

  datatype Event =
    | Open(peer: Peer)
    | Lose(id: PeerId)
    | Announce(id: PeerId, refused: bool)
    | Close(id: PeerId)
    | Drop(id: PeerId)

  /** What may happen: connections open with a new id and are announced once; a closed report
      follows the end of the connection; an operator drops listed peers. */
  predicate Enabled(w: World, e: Event) {
    match e
    case Open(p) => p.id !in w.peers && PeerOk(p)
    case Lose(id) => id in w.peers
    case Announce(id, _) => id in w.peers && id !in w.announced
    case Close(id) => id in w.peers && id !in w.connected && id !in w.closed
    case Drop(id) => id in w.reg.listed
  }

  ghost function Apply(w: World, e: Event, max: nat): World
    requires Enabled(w, e)
  {
    match e
    case Open(p) => w.(peers := w.peers[p.id := p], connected := w.connected + {p.id})
    case Lose(id) => w.(connected := w.connected - {id})
    case Announce(id, refused) =>
      var w' := w.(announced := w.announced + {id});
      if id !in w.connected then w'
      else if refused || |w.reg.listed| >= max then w'.(connected := w.connected - {id})
      else w'.(reg := Added(w.reg, w.peers[id]))
    case Close(id) =>
      var w' := w.(closed := w.closed + {id});
      if id in w.reg.listed then w'.(reg := Removed(w.reg, w.connected, w.peers[id])) else w'
    case Drop(id) =>
      w.(reg := Removed(w.reg, w.connected, w.reg.listed[id]), connected := w.connected - {id})
  }

  /** Bookkeeping: what is listed was announced and is not closed, and what is closed is not
      connected. */
  ghost predicate TablesOk(w: World) {
    && (forall id :: id in w.peers ==> w.peers[id].id == id && PeerOk(w.peers[id]))
    && (forall id ::
         id in w.reg.listed ==>
           id in w.peers && w.reg.listed[id] == w.peers[id] && id in w.announced && id !in w.closed)
    && (forall id :: id in w.connected || id in w.announced || id in w.closed ==> id in w.peers)
    && (forall id :: id in w.closed ==> id !in w.connected)
  }

  ghost predicate Inv(w: World, max: nat) {
    RegistryOk(w.reg, w.connected, max) && TablesOk(w)
  }

  lemma StepTables(w: World, e: Event, max: nat)
    requires TablesOk(w) && Enabled(w, e)
    ensures TablesOk(Apply(w, e, max))
  {
  }

  lemma OpenKeepsOk(w: World, max: nat, p: Peer)
    requires Inv(w, max) && p.id !in w.peers
    ensures RegistryOk(w.reg, w.connected + {p.id}, max)
  {
    assert p.id !in w.reg.listed;
  }

  lemma StepInv(w: World, e: Event, max: nat)
    requires Inv(w, max) && Enabled(w, e)
    ensures Inv(Apply(w, e, max), max)
  {
    StepTables(w, e, max);
    match e
    case Open(p) => OpenKeepsOk(w, max, p);
    case Lose(id) => LoseKeepsOk(w.reg, w.connected, max, id);
    case Announce(id, refused) =>
      if id in w.connected {
        if refused || |w.reg.listed| >= max { LoseKeepsOk(w.reg, w.connected, max, id); }
        else { AddKeepsOk(w.reg, w.connected, max, w.peers[id]); }
      }
    case Close(id) =>
      if id in w.reg.listed { RemoveKeepsOk(w.reg, w.connected, max, w.peers[id]); }
    case Drop(id) =>
      RemoveKeepsOk(w.reg, w.connected, max, w.reg.listed[id]);
      LoseKeepsOk(Removed(w.reg, w.connected, w.reg.listed[id]), w.connected, max, id);
  }

  const START := World(Registry(map[], map[], map[]), map[], {}, {}, {})

  ghost predicate Possible(w: World, events: seq<Event>, max: nat)
    decreases events
  {
    events == [] || (Enabled(w, events[0]) && Possible(Apply(w, events[0], max), events[1..], max))
  }

  ghost function After(w: World, events: seq<Event>, max: nat): World
    requires Possible(w, events, max)
    decreases events
  {
    if events == [] then w else After(Apply(w, events[0], max), events[1..], max)
  }

  lemma {:induction false} RunInv(w: World, events: seq<Event>, max: nat)
    requires Inv(w, max) && Possible(w, events, max)
    ensures Inv(After(w, events, max), max)
    decreases events
  {
    if events != [] {
      StepInv(w, events[0], max);
      RunInv(Apply(w, events[0], max), events[1..], max);
    }
  }

  /** In every reachable state, however announcements, reports, losses and drops interleave:
      the group counts are the listed outbound peers of each group, the limit holds, a peer
      reported closed is not listed, routes lead to listed peers of their validator, and no
      validator with a listed connected peer is without a route. */
  lemma Reachable(events: seq<Event>, max: nat)
    requires Possible(START, events, max)
    ensures var w := After(START, events, max);
      && RegistryOk(w.reg, w.connected, max)
      && forall id :: id in w.closed ==> id !in w.reg.listed
  {
    assert forall g :: Members(START.reg.listed, g) == {};
    RunInv(START, events, max);
  }
}
