/** Directed notifications between CoreNodes: consumed locally, handed to the target's own
    connection, or relayed once by the bootstrap node. */
module Routing {
  import opened Framing

  datatype Notification = Notification(target: Bytes, isMessage: bool, data: Bytes)

  datatype Decision = Deliver | Forward(next: Bytes) | Refuse(error: MsgError)

  /** What a node does with a notification. `peers` are the cores it has a live connection to;
      `inbound` tells whether the notification came from a peer. */
  function Route(local: Bytes, bootstrap: Bytes, peers: set<Bytes>, n: Notification, inbound: bool): Decision {
    if n.target == [] || !n.isMessage || n.data == [] then Refuse(InvalidEnvelope)
    else if local == [] then Refuse(BindingNotFound)
    else if n.target == local then Deliver
    else
      var isBootstrap := bootstrap != [] && local == bootstrap;
      if inbound && !isBootstrap then Refuse(TargetUnavailable)
      else if n.target in peers then Forward(n.target)
      else if inbound || isBootstrap then Refuse(TargetUnavailable)
      else if bootstrap == [] || bootstrap == n.target then Refuse(TargetUnavailable)
      else if bootstrap in peers then Forward(bootstrap)
      else Refuse(TargetUnavailable)
  }

  // ------------------------------------------------------------ whole paths

  /** The nodes that handle a notification, in order, and what the last of them decides. Each
      handling sees the connections of its own moment: `nets[k]` for the k-th. */
  datatype Journey = Journey(path: seq<Bytes>, last: Decision)

  function Travel(bootstrap: Bytes, n: Notification, node: Bytes, inbound: bool, nets: seq<set<Bytes>>): Journey
    requires nets != []
    decreases nets
  {
    var d := Route(node, bootstrap, nets[0], n, inbound);
    if d.Forward? && |nets| > 1 then
      var rest := Travel(bootstrap, n, d.next, true, nets[1..]);
      Journey([node] + rest.path, rest.last)
    else Journey([node], d)
  }

  /** The paths there are. */
  predicate Allowed(bootstrap: Bytes, n: Notification, origin: Bytes, path: seq<Bytes>) {
    || path == [origin]
    || path == [origin, n.target]
    || path == [origin, bootstrap]
    || path == [origin, bootstrap, n.target]
  }

  /** However connections change from hop to hop: three handlings always suffice, the path is
      one of the four allowed ones, no node handles the notification twice, and it is consumed
      by its target and by nobody else. */
  lemma AtMostOneRelay(bootstrap: Bytes, n: Notification, origin: Bytes, nets: seq<set<Bytes>>)
    requires |nets| >= 3
    ensures var j := Travel(bootstrap, n, origin, false, nets);
      && !j.last.Forward?
      && Allowed(bootstrap, n, origin, j.path)
      && (forall a, b :: 0 <= a < b < |j.path| ==> j.path[a] != j.path[b])
      && (j.last.Deliver? ==> j.path[|j.path| - 1] == n.target)
  {
    var d0 := Route(origin, bootstrap, nets[0], n, false);
    if d0.Forward? {
      var one := Travel(bootstrap, n, d0.next, true, nets[1..]);
      SecondHandling(bootstrap, n, d0.next, nets[1..]);
      assert Travel(bootstrap, n, origin, false, nets).path == [origin] + one.path;
    }
  }

  /** A node that is handed a notification consumes it, refuses it or, as the bootstrap, hands
      it to the target, which consumes it. */
  lemma SecondHandling(bootstrap: Bytes, n: Notification, node: Bytes, nets: seq<set<Bytes>>)
    requires |nets| >= 2
    ensures var j := Travel(bootstrap, n, node, true, nets);
      || (j.path == [node] && !j.last.Forward? && (j.last.Deliver? ==> node == n.target))
      || (j.path == [node, n.target] && node == bootstrap && node != n.target && j.last.Deliver?)
  {
    var d := Route(node, bootstrap, nets[0], n, true);
    if d.Forward? {
      assert Travel(bootstrap, n, d.next, true, nets[1..]) == Journey([n.target], Deliver);
    }
  }

  /** Exactly when a well-formed notification reaches its target. */
  lemma DeliveredIff(bootstrap: Bytes, n: Notification, origin: Bytes, nets: seq<set<Bytes>>)
    requires |nets| >= 3 && origin != [] && n.target != [] && n.isMessage && n.data != []
    ensures Travel(bootstrap, n, origin, false, nets).last.Deliver? <==>
      || origin == n.target
      || n.target in nets[0]
      || (bootstrap !in {[], origin, n.target} && bootstrap in nets[0] && n.target in nets[1])
  {
    var d0 := Route(origin, bootstrap, nets[0], n, false);
    if d0.Forward? {
      SecondHandling(bootstrap, n, d0.next, nets[1..]);
      assert nets[1..][0] == nets[1];
    }
  }

  /** What is not a message with a target and data goes nowhere, from no core. */
  lemma MalformedStays(bootstrap: Bytes, n: Notification, origin: Bytes, inbound: bool, nets: seq<set<Bytes>>)
    requires nets != []
    ensures n.target == [] || !n.isMessage || n.data == [] ==>
      Travel(bootstrap, n, origin, inbound, nets) == Journey([origin], Refuse(InvalidEnvelope))
    ensures n.target != [] && n.isMessage && n.data != [] && origin == [] ==>
      Travel(bootstrap, n, origin, inbound, nets) == Journey([origin], Refuse(BindingNotFound))
  {
  }

  /** A journey that ends short of the target ends with an error at some node, and at the origin
      itself unless a relay was tried; so the sender keeps its pending job. */
  lemma FailureReported(bootstrap: Bytes, n: Notification, origin: Bytes, nets: seq<set<Bytes>>)
    requires |nets| >= 3
    ensures var j := Travel(bootstrap, n, origin, false, nets);
      !j.last.Deliver? ==> j.last.Refuse? && (j.path == [origin] || j.path == [origin, bootstrap])
  {
    AtMostOneRelay(bootstrap, n, origin, nets);
    var d0 := Route(origin, bootstrap, nets[0], n, false);
    if d0.Forward? {
      SecondHandling(bootstrap, n, d0.next, nets[1..]);
    }
  }
}
