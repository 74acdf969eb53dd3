/**
 Membership agreement between the supervisors of a cluster
 (csupd/src/exa_csupd.c).

 A state of the cluster is the supervisor of every node and the set of pings
 ever sent. A ping stays in the set for ever, so that it can be lost, received
 late, received many times or received out of order. Every node runs in one
 incarnation.
 */
module Agreement {
  import opened Common
  import opened SupView
  import opened Clique
  import opened Supervision

  datatype Cluster = Cluster(nodes: seq<Supervisor>, sent: set<Ping>)

  datatype Event =
    | Send(node: nat, period: int, timeout: int)
    | Receive(node: nat, ping: Ping, timeout: int)

  ghost predicate IsInit(c: Cluster) {
    && |c.nodes| <= MAX_NODES
    && c.sent == {}
    && (forall i | 0 <= i < |c.nodes| :: c.nodes[i].incarnation != 0 && c.nodes[i] == Started(i, c.nodes[i].incarnation))
  }

  /** A supervisor sends a ping before it receives one, so it has left state
      UNKNOWN by then. */
  ghost predicate Next(c: Cluster, e: Event, d: Cluster) {
    && e.node < |c.nodes|
    && var s := c.nodes[e.node];
      match e
      case Send(i, period, timeout) =>
        && Sound(s)
        && d.nodes == c.nodes[i := PostPing(PrePing(s, period, timeout))]
        && d.sent == c.sent + {PingOf(PrePing(s, period, timeout))}
      case Receive(i, p, timeout) =>
        && p in c.sent
        && CheckPing(p) && s.view.state != Unknown
        && d.nodes == c.nodes[i := ProcessPing(s, p, timeout)]
        && d.sent == c.sent
  }

  ghost predicate IsRun(run: seq<Cluster>, events: seq<Event>) {
    && |run| == |events| + 1
    && IsInit(run[0])
    && (forall i | 0 <= i < |events| :: Next(run[i], events[i], run[i + 1]))
  }

  // ---------------------------------------------------------------- invariant

  predicate HasGen(log: seq<Membership>, gen: nat) {
    exists m :: m in log && m.gen == gen
  }

  /** What a ping says about its sender holds of the sender's history. */
  predicate PingTrue(nodes: seq<Supervisor>, p: Ping) {
    && p.sender < |nodes|
    && p.incarnation == nodes[p.sender].incarnation
    && CheckPing(p)
    && p.view.coord == First(p.view.clique)
    && (p.view.state == Accept ==> Membership(p.view.accepted, p.view.clique) in nodes[p.sender].accepts)
    && (p.view.accepted > 0 ==> HasGen(nodes[p.sender].accepts, p.view.accepted))
    && (p.view.committed > 0 ==> HasGen(nodes[p.sender].delivered, p.view.committed))
  }

  /** The stored view was sent by n, up to the state, which is reset when the
      node is marked dead. */
  predicate WasSent(sent: set<Ping>, n: nat, v: View) {
    exists p :: p in sent && p.sender == n && p.view.(state := v.state) == v
  }

  predicate StoredTrue(nodes: seq<Supervisor>, sent: set<Ping>, s: Supervisor) {
    forall n | n in s.others ::
      && n < |nodes|
      && s.others[n].incarnation == nodes[n].incarnation
      && WasSent(sent, n, s.others[n].view)
  }

  /** A membership was proposed by its lowest member. */
  predicate Proposed(nodes: seq<Supervisor>, m: Membership) {
    First(m.clique) < |nodes| && m in nodes[First(m.clique)].accepts
  }

  /** Some node delivered generation gen as coordinator of its clique. */
  predicate CoordDelivered(nodes: seq<Supervisor>, gen: nat) {
    exists c :: 0 <= c < |nodes| && exists m :: m in nodes[c].delivered && m.gen == gen && First(m.clique) == c
  }

  /** Without restarts a member of the clique stays seen until the clique is
      computed again. */
  predicate SeesClique(s: Supervisor) {
    s.view.clique <= s.view.nodesSeen
  }

  ghost predicate NodeOk(c: Cluster, i: nat)
    requires i < |c.nodes|
  {
    && c.nodes[i].self == i
    && Inv(c.nodes[i])
    && SeesClique(c.nodes[i])
    && StoredTrue(c.nodes, c.sent, c.nodes[i])
    && (forall m | m in c.nodes[i].accepts :: Proposed(c.nodes, m))
    && (forall m | m in c.nodes[i].delivered :: CoordDelivered(c.nodes, m.gen))
  }

  ghost predicate ClusterInv(c: Cluster) {
    && |c.nodes| <= MAX_NODES
    && (forall p | p in c.sent :: PingTrue(c.nodes, p))
    && (forall i | 0 <= i < |c.nodes| :: NodeOk(c, i))
  }

  // ------------------------------------------------------ facts only grow

  /** d has the same nodes with longer histories and more pings. */
  predicate Grows(c: Cluster, d: Cluster) {
    && |d.nodes| == |c.nodes|
    && c.sent <= d.sent
    && (forall i | 0 <= i < |c.nodes| ::
          && c.nodes[i].incarnation == d.nodes[i].incarnation
          && c.nodes[i].accepts <= d.nodes[i].accepts
          && c.nodes[i].delivered <= d.nodes[i].delivered)
  }

  lemma PingStaysTrue(c: Cluster, d: Cluster, p: Ping)
    requires Grows(c, d) && PingTrue(c.nodes, p)
    ensures PingTrue(d.nodes, p)
  {
    if p.view.accepted > 0 {
      var m :| m in c.nodes[p.sender].accepts && m.gen == p.view.accepted;
      assert m in d.nodes[p.sender].accepts;
    }
    if p.view.committed > 0 {
      var m :| m in c.nodes[p.sender].delivered && m.gen == p.view.committed;
      assert m in d.nodes[p.sender].delivered;
    }
  }

  lemma StoredStaysTrue(c: Cluster, d: Cluster, s: Supervisor)
    requires Grows(c, d) && StoredTrue(c.nodes, c.sent, s)
    ensures StoredTrue(d.nodes, d.sent, s)
  {
    forall n | n in s.others ensures WasSent(d.sent, n, s.others[n].view) {
      var p :| p in c.sent && p.sender == n && p.view.(state := s.others[n].view.state) == s.others[n].view;
      assert p in d.sent;
    }
  }

  lemma CoordDeliveredStays(c: Cluster, d: Cluster, gen: nat)
    requires Grows(c, d) && CoordDelivered(c.nodes, gen)
    ensures CoordDelivered(d.nodes, gen)
  {
    var k :| 0 <= k < |c.nodes| && exists m :: m in c.nodes[k].delivered && m.gen == gen && First(m.clique) == k;
    var m :| m in c.nodes[k].delivered && m.gen == gen && First(m.clique) == k;
    assert m in d.nodes[k].delivered;
  }

  /** A node whose histories do not change stays right. */
  lemma SameLogsStayOk(c: Cluster, d: Cluster, i: nat)
    requires Grows(c, d) && i < |c.nodes| && NodeOk(c, i)
    requires d.nodes[i].self == i && Inv(d.nodes[i]) && StoredTrue(d.nodes, d.sent, d.nodes[i])
    requires d.nodes[i].accepts == c.nodes[i].accepts && d.nodes[i].delivered == c.nodes[i].delivered
    requires SeesClique(d.nodes[i])
    ensures NodeOk(d, i)
  {
    forall m | m in d.nodes[i].accepts ensures Proposed(d.nodes, m) {
      assert Proposed(c.nodes, m);
    }
    forall m | m in d.nodes[i].delivered ensures CoordDelivered(d.nodes, m.gen) {
      CoordDeliveredStays(c, d, m.gen);
    }
  }

  lemma OtherNodeStaysOk(c: Cluster, d: Cluster, i: nat)
    requires Grows(c, d) && i < |c.nodes| && NodeOk(c, i) && d.nodes[i] == c.nodes[i]
    ensures NodeOk(d, i)
  {
    StoredStaysTrue(c, d, c.nodes[i]);
    SameLogsStayOk(c, d, i);
  }

  // --------------------------------------------------------------- sending

  lemma NewPingIsTrue(nodes: seq<Supervisor>, s: Supervisor, period: int, timeout: int)
    requires s.self < |nodes| && nodes[s.self] == s && Inv(s)
    ensures PingTrue(nodes, PingOf(PrePing(s, period, timeout)))
  {
    SendKeepsInv(s, period, timeout);
    var r := PrePing(s, period, timeout);
    assert StateSound(PostPing(r));
    assert r.view.accepted == s.view.accepted && r.view.committed == s.view.committed;
    if r.view.accepted > 0 {
      assert s.accepts[|s.accepts| - 1] in s.accepts;
    }
    if r.view.committed > 0 {
      assert s.delivered[|s.delivered| - 1] in s.delivered;
    }
    if r.view.state == Accept {
      assert s.accepts[|s.accepts| - 1] == Membership(r.view.accepted, r.view.clique);
    }
  }

  lemma AgedStaysStored(nodes: seq<Supervisor>, sent: set<Ping>, s: Supervisor, period: int, timeout: int)
    requires StoredTrue(nodes, sent, s)
    ensures StoredTrue(nodes, sent, Aged(s, period, timeout))
  {
    var a := Aged(s, period, timeout);
    forall n | n in a.others ensures WasSent(sent, n, a.others[n].view) {
      var p :| p in sent && p.sender == n && p.view.(state := s.others[n].view.state) == s.others[n].view;
      assert p.view.(state := a.others[n].view.state) == a.others[n].view;
    }
  }

  lemma AgedStaysOk(c: Cluster, d: Cluster, i: nat, period: int, timeout: int)
    requires Grows(c, d) && i < |c.nodes| && NodeOk(c, i)
    requires d.nodes[i].self == i && Inv(d.nodes[i]) && SeesClique(d.nodes[i])
    requires d.nodes[i].others == Aged(c.nodes[i], period, timeout).others
    requires d.nodes[i].accepts == c.nodes[i].accepts && d.nodes[i].delivered == c.nodes[i].delivered
    ensures NodeOk(d, i)
  {
    StoredStaysTrue(c, d, c.nodes[i]);
    AgedStaysStored(d.nodes, d.sent, c.nodes[i], period, timeout);
    assert StoredTrue(d.nodes, d.sent, d.nodes[i]);
    SameLogsStayOk(c, d, i);
  }

  lemma SendKeepsCluster(c: Cluster, e: Event, d: Cluster)
    requires ClusterInv(c) && e.Send? && Next(c, e, d)
    ensures ClusterInv(d)
  {
    var s := c.nodes[e.node];
    assert NodeOk(c, e.node);
    SendKeepsInv(s, e.period, e.timeout);
    SendKeepsRest(s, e.period, e.timeout);
    NewPingIsTrue(c.nodes, s, e.period, e.timeout);
    var r, p := d.nodes[e.node], PingOf(PrePing(s, e.period, e.timeout));
    SentKeepsCluster(c, d, e.node, r, p, e.period, e.timeout);
  }

  lemma SentKeepsCluster(c: Cluster, d: Cluster, i: nat, r: Supervisor, p: Ping, period: int, timeout: int)
    requires ClusterInv(c) && i < |c.nodes| && PingTrue(c.nodes, p)
    requires d == Cluster(c.nodes[i := r], c.sent + {p})
    requires r.self == i && Inv(r) && !r.selfChanged && r.incarnation == c.nodes[i].incarnation
    requires r.others == Aged(c.nodes[i], period, timeout).others
    requires r.accepts == c.nodes[i].accepts && r.delivered == c.nodes[i].delivered
    ensures ClusterInv(d)
  {
    assert Grows(c, d);
    forall q | q in d.sent ensures PingTrue(d.nodes, q) { PingStaysTrue(c, d, q); }
    forall j | 0 <= j < |d.nodes| ensures NodeOk(d, j) {
      assert NodeOk(c, j);
      if j == i { AgedStaysOk(c, d, i, period, timeout); } else { OtherNodeStaysOk(c, d, j); }
    }
  }

  // ------------------------------------------------------------- receiving

  /** The supervisor after the bookkeeping of a received ping. */
  function Noted(s: Supervisor, p: Ping, timeout: int): Supervisor {
    if p.sender == s.self then s else UpdateNodeInfo(s, p, timeout)
  }

  lemma UpdateStaysStored(nodes: seq<Supervisor>, sent: set<Ping>, s: Supervisor, p: Ping, timeout: int)
    requires StoredTrue(nodes, sent, s) && PingTrue(nodes, p) && p in sent && p.sender != s.self
    ensures StoredTrue(nodes, sent, UpdateNodeInfo(s, p, timeout))
  {
    var r := UpdateNodeInfo(s, p, timeout);
    UpdateStores(s, p, timeout);
    forall n | n in r.others ensures WasSent(sent, n, r.others[n].view) {
      if n == p.sender { assert p.view.(state := r.others[n].view.state) == r.others[n].view; }
      else { assert WasSent(sent, n, s.others[n].view); }
    }
  }

  lemma NotedIsTrue(c: Cluster, i: nat, p: Ping, timeout: int)
    requires |c.nodes| <= MAX_NODES && i < |c.nodes| && NodeOk(c, i)
    requires p in c.sent && PingTrue(c.nodes, p) && c.nodes[i].view.state != Unknown
    ensures Inv(Noted(c.nodes[i], p, timeout)) && SeesClique(Noted(c.nodes[i], p, timeout))
    ensures StoredTrue(c.nodes, c.sent, Noted(c.nodes[i], p, timeout))
  {
    var s := c.nodes[i];
    if p.sender != i {
      assert p.sender in s.view.nodesSeen ==> p.sender in s.others;
      UpdateKeepsSight(s, p, timeout);
      UpdateKeepsInv(s, p, timeout);
      UpdateStaysStored(c.nodes, c.sent, s, p, timeout);
    }
  }

  lemma NotedKeepsLogs(s: Supervisor, p: Ping, timeout: int)
    ensures Noted(s, p, timeout).accepts == s.accepts
    ensures Noted(s, p, timeout).delivered == s.delivered
    ensures Noted(s, p, timeout).self == s.self
    ensures Noted(s, p, timeout).incarnation == s.incarnation
    ensures Noted(s, p, timeout).acceptedClique == s.acceptedClique
    ensures Noted(s, p, timeout).view.state == s.view.state
    ensures Noted(s, p, timeout).view.coord == s.view.coord
    ensures Noted(s, p, timeout).view.clique == s.view.clique
    ensures Noted(s, p, timeout).view.accepted == s.view.accepted
    ensures Noted(s, p, timeout).view.committed == s.view.committed
  {
  }

  /** The membership a supervisor accepts is its own proposal or one that its
      lowest member accepted before. */
  lemma AcceptedIsProposed(nodes: seq<Supervisor>, s: Supervisor, p: Ping)
    requires Inv(s) && s.view.state != Unknown && PingTrue(nodes, p) && s.self < |nodes|
    requires forall n | n in s.others :: n < |nodes|
    requires React(s, p).accepts != s.accepts
    ensures exists m :: React(s, p).accepts == s.accepts + [m]
                        && First(m.clique) < |nodes|
                        && (First(m.clique) == s.self || m in nodes[First(m.clique)].accepts)
  {
    var r := React(s, p);
    var m := Membership(r.view.accepted, s.view.clique);
    assert r.accepts == s.accepts + [m];
    assert First(s.view.clique) == s.view.coord;
    assert s.self in s.view.clique && s.view.coord < MAX_NODES;
  }

  /** The membership a supervisor delivers is delivered by a coordinator, or
      follows a delivery of the same generation. */
  lemma DeliveredHasCoord(nodes: seq<Supervisor>, s: Supervisor, p: Ping)
    requires Inv(s) && s.view.state != Unknown && PingTrue(nodes, p)
    requires React(s, p).delivered != s.delivered
    ensures exists m :: React(s, p).delivered == s.delivered + [m]
                        && m in s.accepts
                        && (First(m.clique) == s.self || HasGen(nodes[p.sender].delivered, m.gen))
  {
    var m := Membership(s.view.accepted, s.acceptedClique);
    assert React(s, p).delivered == s.delivered + [m];
    assert s.view.accepted > s.view.committed;
    assert s.accepts[|s.accepts| - 1] == m;
    if s.IsCoord() {
      assert s.view.state == Accept && First(m.clique) == s.self;
    } else {
      assert p.view.committed == m.gen;
    }
  }

  lemma ReactGrows(s: Supervisor, p: Ping)
    requires s.view.state != Unknown
    ensures s.accepts <= React(s, p).accepts && s.delivered <= React(s, p).delivered
    ensures React(s, p).others == s.others && React(s, p).self == s.self && React(s, p).incarnation == s.incarnation
    ensures React(s, p).selfChanged == s.selfChanged
  {
  }

  /** Membership m, new in the log of node i, was proposed. */
  lemma NewAcceptIsProposed(c: Cluster, d: Cluster, s: Supervisor, p: Ping, m: Membership)
    requires Grows(c, d) && Inv(s) && s.view.state != Unknown && PingTrue(c.nodes, p)
    requires s.self < |c.nodes| && StoredTrue(c.nodes, c.sent, s)
    requires d.nodes[s.self].accepts == React(s, p).accepts
    requires m in React(s, p).accepts && m !in s.accepts
    ensures Proposed(d.nodes, m)
  {
    AcceptedIsProposed(c.nodes, s, p);
    assert React(s, p).accepts[|s.accepts|] == m;
  }

  lemma NewDeliveryHasCoord(c: Cluster, d: Cluster, s: Supervisor, p: Ping, m: Membership)
    requires Grows(c, d) && Inv(s) && s.view.state != Unknown && PingTrue(c.nodes, p)
    requires s.self < |c.nodes| && d.nodes[s.self].delivered == React(s, p).delivered
    requires forall n | n in c.nodes[p.sender].delivered :: CoordDelivered(c.nodes, n.gen)
    requires m in React(s, p).delivered && m !in s.delivered
    ensures CoordDelivered(d.nodes, m.gen)
  {
    DeliveredHasCoord(c.nodes, s, p);
    assert React(s, p).delivered[|s.delivered|] == m;
    if First(m.clique) == s.self {
      assert m in d.nodes[s.self].delivered;
    } else {
      var n :| n in c.nodes[p.sender].delivered && n.gen == m.gen;
      CoordDeliveredStays(c, d, m.gen);
    }
  }

  lemma ReactKeepsSight(s: Supervisor, p: Ping)
    requires s.view.state != Unknown && SeesClique(s)
    ensures SeesClique(React(s, p))
  {
  }

  lemma ReceiverStaysOk(c: Cluster, e: Event, d: Cluster)
    requires ClusterInv(c) && e.Receive? && Next(c, e, d) && Grows(c, d)
    ensures NodeOk(d, e.node)
  {
    var i, p := e.node, e.ping;
    assert NodeOk(c, i) && PingTrue(c.nodes, p) && NodeOk(c, p.sender);
    NotedIsTrue(c, i, p, e.timeout);
    NotedKeepsLogs(c.nodes[i], p, e.timeout);
    var s := Noted(c.nodes[i], p, e.timeout);
    ReactKeepsInv(s, p);
    ReactKeepsSight(s, p);
    ReactGrows(s, p);
    StoredStaysTrue(c, d, s);
    forall m | m in d.nodes[i].accepts ensures Proposed(d.nodes, m) {
      if m in s.accepts {
        assert Proposed(c.nodes, m);
      } else {
        NewAcceptIsProposed(c, d, s, p, m);
      }
    }
    forall m | m in d.nodes[i].delivered ensures CoordDelivered(d.nodes, m.gen) {
      if m in s.delivered {
        CoordDeliveredStays(c, d, m.gen);
      } else {
        NewDeliveryHasCoord(c, d, s, p, m);
      }
    }
  }

  lemma ReceiveKeepsCluster(c: Cluster, e: Event, d: Cluster)
    requires ClusterInv(c) && e.Receive? && Next(c, e, d)
    ensures ClusterInv(d)
  {
    NotedKeepsLogs(c.nodes[e.node], e.ping, e.timeout);
    ReactGrows(Noted(c.nodes[e.node], e.ping, e.timeout), e.ping);
    assert Grows(c, d);
    ReceiverStaysOk(c, e, d);
    forall p | p in d.sent ensures PingTrue(d.nodes, p) { PingStaysTrue(c, d, p); }
    forall i | 0 <= i < |d.nodes| ensures NodeOk(d, i) {
      assert NodeOk(c, i);
      if i != e.node { OtherNodeStaysOk(c, d, i); }
    }
  }

  // ------------------------------------------------------------ whole runs

  lemma InitIsOk(c: Cluster)
    requires IsInit(c)
    ensures ClusterInv(c)
  {
    forall i | 0 <= i < |c.nodes| ensures NodeOk(c, i) {
      StartedKeepsInv(i, c.nodes[i].incarnation);
    }
  }

  /** Every state of every run satisfies the invariant. */
  lemma {:induction false} RunKeepsInv(run: seq<Cluster>, events: seq<Event>, k: nat)
    requires IsRun(run, events) && k < |run|
    ensures ClusterInv(run[k])
  {
    if k == 0 {
      InitIsOk(run[0]);
    } else {
      RunKeepsInv(run, events, k - 1);
      assert Next(run[k - 1], events[k - 1], run[k]);
      if events[k - 1].Send? {
        SendKeepsCluster(run[k - 1], events[k - 1], run[k]);
      } else {
        ReceiveKeepsCluster(run[k - 1], events[k - 1], run[k]);
      }
    }
  }

  /** The log of accepted memberships holds one clique for a generation. */
  lemma RisingIsUnique(log: seq<Membership>, m: Membership, n: Membership)
    requires Rising(log) && m in log && n in log && m.gen == n.gen
    ensures m == n
  {
    var i :| 0 <= i < |log| && log[i] == m;
    var j :| 0 <= j < |log| && log[j] == n;
    assert i == j;
  }

  /** Agreement. In every run, two nodes that deliver the same generation for
      cliques with the same lowest member deliver the same clique. */
  lemma DeliveriesAgree(run: seq<Cluster>, events: seq<Event>, k: nat, i: nat, j: nat, m: Membership, n: Membership)
    requires IsRun(run, events) && k < |run| && i < |run[k].nodes| && j < |run[k].nodes|
    requires m in run[k].nodes[i].delivered && n in run[k].nodes[j].delivered
    requires m.gen == n.gen && First(m.clique) == First(n.clique)
    ensures m.clique == n.clique
  {
    RunKeepsInv(run, events, k);
    var c := run[k];
    assert NodeOk(c, i) && NodeOk(c, j);
    assert Proposed(c.nodes, m) && Proposed(c.nodes, n);
    assert NodeOk(c, First(m.clique));
    RisingIsUnique(c.nodes[First(m.clique)].accepts, m, n);
  }

  /** What a node delivers: generations only rise, the node belongs to every
      membership it delivers, it accepted each of them before, and no
      generation is delivered that no coordinator delivered. */
  lemma DeliveriesAreSound(run: seq<Cluster>, events: seq<Event>, k: nat, i: nat)
    requires IsRun(run, events) && k < |run| && i < |run[k].nodes|
    ensures Rising(run[k].nodes[i].delivered)
    ensures forall m | m in run[k].nodes[i].delivered ::
              && i in m.clique
              && m in run[k].nodes[i].accepts
              && Proposed(run[k].nodes, m)
              && CoordDelivered(run[k].nodes, m.gen)
  {
    RunKeepsInv(run, events, k);
    assert NodeOk(run[k], i);
  }

  /** The other members accepted generation gen and told so: each sent a view
      with that generation and clique, and accepted the generation for the
      same clique or for one with another lowest member. */
  predicate Evidence(c: Cluster, n: nat, m: Membership)
    requires n < |c.nodes|
  {
    && (exists p :: p in c.sent && p.sender == n && p.view.clique == m.clique && p.view.accepted == m.gen)
    && (exists a :: a in c.nodes[n].accepts && a.gen == m.gen
                    && (a.clique == m.clique || First(a.clique) != First(m.clique)))
  }

  /** What a coordinator commits is its current clique. */
  lemma CommitIsOfClique(s: Supervisor, p: Ping, m: Membership)
    requires Inv(s) && s.view.state != Unknown && s.IsCoord()
    requires React(s, p).delivered == s.delivered + [m]
    ensures s.view.state == Accept && m == Membership(s.view.accepted, s.view.clique) && CliqueHasAccepted(s, m.gen)
  {
    assert React(s, p).delivered[|s.delivered|] == m;
  }

  /** A coordinator that commits holds the matching view of every member it
      sees. */
  lemma CommitterHoldsViews(s: Supervisor, p: Ping, m: Membership, n: nat)
    requires Inv(s) && s.view.state != Unknown && s.IsCoord()
    requires React(s, p).delivered == s.delivered + [m]
    requires n in m.clique && n != s.self && n in s.view.nodesSeen
    ensures n in s.others && s.others[n].view.clique == m.clique && s.others[n].view.accepted == m.gen
    ensures m.gen > 0 && m in s.accepts && First(m.clique) == s.self
  {
    CommitIsOfClique(s, p, m);
    assert n < s.view.numSeen;
    assert s.accepts[|s.accepts| - 1] == m;
  }

  lemma HeldViewIsEvidence(c: Cluster, s: Supervisor, m: Membership, n: nat)
    requires ClusterInv(c) && StoredTrue(c.nodes, c.sent, s) && s.self < |c.nodes|
    requires n in s.others && s.others[n].view.clique == m.clique && s.others[n].view.accepted == m.gen
    requires m.gen > 0 && m in c.nodes[s.self].accepts && First(m.clique) == s.self
    ensures n < |c.nodes| && Evidence(c, n, m)
  {
    var p :| p in c.sent && p.sender == n && p.view.(state := s.others[n].view.state) == s.others[n].view;
    assert PingTrue(c.nodes, p);
    assert p.view.clique == m.clique && p.view.accepted == m.gen;
    var a :| a in c.nodes[n].accepts && a.gen == m.gen;
    assert NodeOk(c, n) && Proposed(c.nodes, a) && NodeOk(c, s.self);
    if First(a.clique) == First(m.clique) {
      RisingIsUnique(c.nodes[s.self].accepts, a, m);
    }
  }

  lemma CommitStepHasEvidence(c: Cluster, e: Event, d: Cluster, m: Membership, n: nat)
    requires ClusterInv(c) && e.Receive? && Next(c, e, d)
    requires d.nodes[e.node].delivered == c.nodes[e.node].delivered + [m]
    requires c.nodes[e.node].IsCoord()
    requires n in m.clique && n != e.node
    ensures n < |c.nodes| && Evidence(c, n, m)
  {
    assert NodeOk(c, e.node) && PingTrue(c.nodes, e.ping);
    NotedIsTrue(c, e.node, e.ping, e.timeout);
    NotedKeepsLogs(c.nodes[e.node], e.ping, e.timeout);
    var s := Noted(c.nodes[e.node], e.ping, e.timeout);
    ReactGrows(s, e.ping);
    assert d.nodes[e.node] == React(s, e.ping);
    CommitIsOfClique(s, e.ping, m);
    CommitterHoldsViews(s, e.ping, m, n);
    HeldViewIsEvidence(c, s, m, n);
  }

  /** Commit evidence. When a coordinator delivers a membership, every other member had accepted that generation before. */
  lemma CommitHasEvidence(run: seq<Cluster>, events: seq<Event>, k: nat, m: Membership, n: nat)
    requires IsRun(run, events) && k < |events| && events[k].Receive?
    requires Next(run[k], events[k], run[k + 1])
    requires run[k + 1].nodes[events[k].node].delivered == run[k].nodes[events[k].node].delivered + [m]
    requires run[k].nodes[events[k].node].IsCoord()
    requires n in m.clique && n != events[k].node
    ensures n < |run[k].nodes| && Evidence(run[k], n, m)
  {
    RunKeepsInv(run, events, k);
    CommitStepHasEvidence(run[k], events[k], run[k + 1], m, n);
  }

  // --------------------------------------------------------------- restarts

  /** Node n has accepted m, as far as s knows. */
  predicate HasAccepted(s: Supervisor, n: nat, m: Membership) {
    n in s.others && s.others[n].view.clique == m.clique && s.others[n].view.accepted == m.gen
  }

  /** Restarts included: a coordinator that commits has the acceptance of all
      other members if and only if those at or past num_seen, which its tests do
      not visit, have accepted. */
  lemma CommitIsFullIff(s: Supervisor, p: Ping, m: Membership)
    requires Inv(s) && s.view.state != Unknown && s.IsCoord()
    requires React(s, p).delivered == s.delivered + [m]
    ensures (forall n | n in m.clique && n != s.self :: HasAccepted(s, n, m)) <==>
            (forall n | n in m.clique && n >= s.view.numSeen :: HasAccepted(s, n, m))
  {
    CommitIsOfClique(s, p, m);
    forall n | n in m.clique && n != s.self && n < s.view.numSeen
      ensures HasAccepted(s, n, m)
    {
      CommitterHoldsViews(s, p, m, n);
    }
  }

  /** That is so when it still sees all members. */
  lemma SeenCommitIsFull(s: Supervisor, p: Ping, m: Membership)
    requires Inv(s) && s.view.state != Unknown && s.IsCoord() && SeesClique(s)
    requires React(s, p).delivered == s.delivered + [m]
    ensures forall n | n in m.clique && n != s.self :: HasAccepted(s, n, m)
  {
    CommitIsOfClique(s, p, m);
    CommitIsFullIff(s, p, m);
  }
}
