/**
 A member that never agrees (csupd/src/exa_csupd.c). Of three supervisors, 0 and
 1 agree on their pair while 2 joins. Supervisor 1 takes over the new clique
 before it hears of the commit of the pair, follows the commit in state CHANGE,
 and so leaves that state for good.
 */
module StrandedMember {
  import opened Common
  import opened Clique
  import opened SupView
  import opened Supervision
  import opened SupervisorPaths
  import opened Agreement
  import opened RestartWitness
  import opened MemberSchedules
  import opened AgreementProgress
  import opened AgreementReached

  // ------------------------------------------------- runs of three supervisors

  /** Some run leads to supervisors a, b and c and has these pings out. */
  ghost predicate At(a: Supervisor, b: Supervisor, c: Supervisor, pings: set<Ping>) {
    exists run: seq<Cluster>, events: seq<Agreement.Event> ::
      IsRun(run, events) && run[|events|].nodes == [a, b, c] && pings <= run[|events|].sent
  }

  lemma AtStart()
    ensures At(Started(0, 1), Started(1, 1), Started(2, 1), {})
  {
    var c := Cluster([Started(0, 1), Started(1, 1), Started(2, 1)], {});
    assert IsRun([c], []);
  }

  lemma OneMore(run: seq<Cluster>, events: seq<Agreement.Event>, e: Agreement.Event, d: Cluster)
    returns (r: seq<Cluster>, es: seq<Agreement.Event>)
    requires IsRun(run, events) && Next(run[|events|], e, d)
    ensures IsRun(r, es) && r[|es|] == d
  {
    var n := |events|;
    var longer, more := [run[n], d], [e];
    forall i | 0 <= i < |more| ensures Next(longer[i], more[i], longer[i + 1]) {
      assert i == 0;
    }
    RunsJoin(run, events, n, longer, more);
    r, es := run[..n] + longer, events[..n] + more;
  }

  /** Node i becomes t, and the pings grow. */
  lemma AtNext(run: seq<Cluster>, events: seq<Agreement.Event>, e: Agreement.Event, d: Cluster,
               a: Supervisor, b: Supervisor, c: Supervisor, pings: set<Ping>)
    requires IsRun(run, events) && Next(run[|events|], e, d) && d.nodes == [a, b, c] && pings <= d.sent
    ensures At(a, b, c, pings)
  {
    var r, es := OneMore(run, events, e, d);
    assert IsRun(r, es) && r[|es|] == d;
  }

  lemma AtKeepsInv(a: Supervisor, b: Supervisor, c: Supervisor, pings: set<Ping>)
    requires At(a, b, c, pings)
    ensures Inv(a) && Inv(b) && Inv(c)
  {
    var run: seq<Cluster>, events: seq<Agreement.Event> :|
      IsRun(run, events) && run[|events|].nodes == [a, b, c] && pings <= run[|events|].sent;
    RunKeepsInv(run, events, |events|);
    assert Agreement.NodeOk(run[|events|], 0) && Agreement.NodeOk(run[|events|], 1)
           && Agreement.NodeOk(run[|events|], 2);
  }

  /** Which of three. */
  function Pick(a: Supervisor, b: Supervisor, c: Supervisor, i: nat): Supervisor {
    if i == 0 then a else if i == 1 then b else c
  }

  ghost predicate AtWith(a: Supervisor, b: Supervisor, c: Supervisor, pings: set<Ping>, i: nat, t: Supervisor) {
    At(if i == 0 then t else a, if i == 1 then t else b, if i == 0 || i == 1 then c else t, pings)
  }

  function Told(t: Supervisor): Ping {
    Ping(t.self, t.incarnation, t.view)
  }

  lemma MakesSend(a: Supervisor, b: Supervisor, c: Supervisor, pings: set<Ping>, i: nat, t: Supervisor)
    requires At(a, b, c, pings) && i < 3 && Makes(Pick(a, b, c, i), Sent(0, 3), t)
    ensures AtWith(a, b, c, pings + {Told(t)}, i, t)
  {
    var run: seq<Cluster>, events: seq<Agreement.Event> :|
      IsRun(run, events) && run[|events|].nodes == [a, b, c] && pings <= run[|events|].sent;
    var d := Cluster([a, b, c][i := t], run[|events|].sent + {Told(t)});
    assert Next(run[|events|], Send(i, 0, 3), d);
    AtNext(run, events, Send(i, 0, 3), d, d.nodes[0], d.nodes[1], d.nodes[2], pings + {Told(t)});
  }

  lemma MakesReceive(a: Supervisor, b: Supervisor, c: Supervisor, pings: set<Ping>, i: nat, p: Ping, t: Supervisor)
    requires At(a, b, c, pings) && i < 3 && p in pings && Makes(Pick(a, b, c, i), Got(p, 3), t)
    ensures AtWith(a, b, c, pings, i, t)
  {
    var run: seq<Cluster>, events: seq<Agreement.Event> :|
      IsRun(run, events) && run[|events|].nodes == [a, b, c] && pings <= run[|events|].sent;
    var d := Cluster([a, b, c][i := t], run[|events|].sent);
    assert Next(run[|events|], Receive(i, p, 3), d);
    AtNext(run, events, Receive(i, p, 3), d, d.nodes[0], d.nodes[1], d.nodes[2], pings);
  }

  /** k is the clique of s. */
  ghost predicate HasClique(s: Supervisor, k: set<nat>) {
    InRange(s.Table().Keys) && SelfSeeing(s.Table()) ==> CliqueOf(s.Table(), s.self) == k
  }

  /** A marked node sends with clique k. */
  lemma SendsClique(a: Supervisor, b: Supervisor, c: Supervisor, pings: set<Ping>, i: nat, k: set<nat>, t: Supervisor)
    requires At(a, b, c, pings) && i < 3 && Young(Pick(a, b, c, i)) && Marked(Pick(a, b, c, i))
    requires HasClique(Pick(a, b, c, i), k) && t == PostPing(WithClique(Pick(a, b, c, i), k))
    ensures AtWith(a, b, c, pings + {Told(t)}, i, t)
  {
    AtKeepsInv(a, b, c, pings);
    ChangedSend(Pick(a, b, c, i));
    MakesSend(a, b, c, pings, i, t);
  }

  /** A node without mark sends. */
  lemma SendsAgain(a: Supervisor, b: Supervisor, c: Supervisor, pings: set<Ping>, i: nat)
    requires At(a, b, c, pings) && i < 3 && Young(Pick(a, b, c, i)) && !Marked(Pick(a, b, c, i))
    ensures At(a, b, c, pings + {Told(Pick(a, b, c, i))})
  {
    AtKeepsInv(a, b, c, pings);
    QuietSend(Pick(a, b, c, i));
    MakesSend(a, b, c, pings, i, Pick(a, b, c, i));
  }

  /** A node gets p, which makes it u, and reacts. */
  lemma Gets(a: Supervisor, b: Supervisor, c: Supervisor, pings: set<Ping>, i: nat, p: Ping, u: Supervisor,
          t: Supervisor)
    requires At(a, b, c, pings) && i < 3 && p in pings && CheckPing(p) && p.sender < 3
    requires Pick(a, b, c, i).view.state != Unknown
    requires u == if p.sender == Pick(a, b, c, i).self then Pick(a, b, c, i) else UpdateNodeInfo(Pick(a, b, c, i), p, 3)
    requires u.view.state != Unknown && t == React(u, p)
    ensures AtWith(a, b, c, pings, i, t)
  {
    assert Makes(Pick(a, b, c, i), Got(p, 3), t);
    MakesReceive(a, b, c, pings, i, p, t);
  }

  // ------------------------------------------------------------------- cliques

  /** Nobody else sees self. */
  lemma LonelyClique(t: Sight, self: nat)
    requires InRange(t.Keys) && SelfSeeing(t) && self in t && forall n | n in t && n != self :: self !in t[n]
    ensures CliqueOf(t, self) == {self}
  {
    CliqueIsMaximal(t, t.Keys, self);
  }

  /** Nodes a and b see each other, and nobody else sees them. */
  lemma PairClique(t: Sight, a: nat, b: nat)
    requires InRange(t.Keys) && SelfSeeing(t) && a in t && b in t && a != b && b in t[a] && a in t[b]
    requires forall n | n in t && n != a && n != b :: a !in t[n] && b !in t[n]
    ensures CliqueOf(t, a) == {a, b}
  {
    InPair(t, a, b);
    InPair(t, b, a);
    CliquesPartition(t, t.Keys, a, b);
    if CliqueFrom(t, t.Keys, a) != CliqueFrom(t, t.Keys, b) {
      CliquesAreApart(t, t.Keys, a, b);
    }
    Together(t, CliqueFrom(t, t.Keys, a), CliqueFrom(t, t.Keys, b), a, b);
  }

  lemma Together(t: Sight, j: set<nat>, k: set<nat>, a: nat, b: nat)
    requires a in t && b in t && Mutual(t, a, b) && a in j && b in k && j <= {a, b} && k <= {a, b}
    requires j <= t.Keys && k <= t.Keys && (j == k || j !! k)
    requires j != k ==> Blocked(t, j, b) || Blocked(t, k, a)
    ensures j == {a, b}
  {
    if j != k {
      SinglesAreFree(t, j, a, b);
      SinglesAreFree(t, k, b, a);
    }
  }

  lemma InPair(t: Sight, a: nat, b: nat)
    requires InRange(t.Keys) && SelfSeeing(t) && a in t && forall n | n in t && n != a && n != b :: a !in t[n]
    ensures CliqueOf(t, a) <= {a, b}
  {
    CliqueIsMaximal(t, t.Keys, a);
  }

  lemma SinglesAreFree(t: Sight, k: set<nat>, a: nat, b: nat)
    requires k <= {a} && a in t && b in t && Mutual(t, a, b)
    ensures k <= t.Keys && !Blocked(t, k, b)
  {
  }

  lemma LonelyHas(s: Supervisor)
    requires s.self !in s.others && forall n | n in s.others :: s.self !in s.others[n].view.nodesSeen
    ensures HasClique(s, {s.self})
  {
    if InRange(s.Table().Keys) && SelfSeeing(s.Table()) {
      LonelyClique(s.Table(), s.self);
    }
  }

  lemma PairHas(s: Supervisor, b: nat)
    requires s.self !in s.others && b in s.others && b in s.view.nodesSeen && s.self in s.others[b].view.nodesSeen
    requires forall n | n in s.others && n != b ::
               s.self !in s.others[n].view.nodesSeen && b !in s.others[n].view.nodesSeen
    ensures HasClique(s, {s.self, b})
  {
    if InRange(s.Table().Keys) && SelfSeeing(s.Table()) {
      PairClique(s.Table(), s.self, b);
    }
  }

  /** A marked node, which knows that all three see each other, sends. */
  lemma SendsTrio(a: Supervisor, b: Supervisor, c: Supervisor, pings: set<Ping>, i: nat, t: Supervisor)
    requires At(a, b, c, pings) && i < 3 && Young(Pick(a, b, c, i)) && Marked(Pick(a, b, c, i))
    requires Pick(a, b, c, i).others.Keys + {Pick(a, b, c, i).self} == TRIO && Pick(a, b, c, i).view.nodesSeen == TRIO
    requires forall n | n in Pick(a, b, c, i).others :: Pick(a, b, c, i).others[n].view.nodesSeen == TRIO
    requires t == PostPing(WithClique(Pick(a, b, c, i), TRIO))
    ensures AtWith(a, b, c, pings + {Told(t)}, i, t)
  {
    AtKeepsInv(a, b, c, pings);
    AllInClique(Pick(a, b, c, i));
    SendsClique(a, b, c, pings, i, TRIO, t);
  }

  // --------------------------------------------------------------- proposals

  lemma {:induction false} MaxGenAtMost(s: Supervisor, k: nat, m: nat)
    requires forall n | n in s.Known() && n in s.view.nodesSeen ::
               s.ViewOf(n).accepted <= m && s.ViewOf(n).committed <= m
    ensures MaxGen(s, k) <= m
  {
    if k > 0 { MaxGenAtMost(s, k - 1, m); }
  }

  /** A coordinator alone, or with the agreement of b, makes a proposal. */
  lemma ProposesNext(u: Supervisor, p: Ping)
    requires u.view.state == Change && u.IsCoord() && p.view.state == Change
    requires u.self in u.view.nodesSeen && u.self < u.view.numSeen && u.view.committed <= u.view.accepted
    requires forall n | n in u.others && n in u.view.nodesSeen && n != u.self ::
               u.others[n].view.accepted <= u.view.accepted && u.others[n].view.committed <= u.view.accepted
    requires forall n | n in u.view.clique && n != u.self ::
               && n in u.others && n in u.view.nodesSeen
               && u.others[n].view.clique == u.view.clique && u.others[n].view.coord == u.self
    ensures React(u, p) == AcceptClique(u, u.view.accepted + 1)
  {
    assert CliqueSeesSelfAsCoord(u);
    MaxGenAtMost(u, u.view.numSeen, u.view.accepted);
    MaxGenBounds(u, u.view.numSeen, u.self);
  }

  // ------------------------------------------------------------ views and pings

  const PAIR: set<nat> := {0, 1}

  /** The view of a node that sees all three. */
  function Full(state: State, clique: set<nat>, coord: nat, accepted: nat, committed: nat): View {
    View(state, 3, TRIO, clique, coord, accepted, committed)
  }

  function Info(v: View): NodeInfo {
    NodeInfo(1, v, 0)
  }

  const LONE0 := View(Change, 1, {0}, {0}, 0, 0, 0)
  const LONE1 := View(Change, 2, {1}, {1}, 1, 0, 0)
  const LONE2 := View(Change, 3, {2}, {2}, 2, 0, 0)
  const SEES0 := Full(Change, {0}, 0, 1, 0)     // node 0 has seen the others
  const SEES1 := Full(Change, {1}, 1, 1, 0)     // and node 1
  const PAIRED := Full(Change, PAIR, 0, 2, 0)   // both have taken over the pair
  const REPAIRED := Full(Change, PAIR, 0, 3, 0) // node 0, before its proposal
  const OFFER := Full(Accept, PAIR, 0, 4, 0)    // both, generation 4 accepted
  const DONE := Full(Commit, PAIR, 0, 4, 4)     // node 0, generation 4 committed
  const JOINED := Full(Change, TRIO, 0, 0, 0)   // node 2, in the new clique
  const WIDER := Full(Change, TRIO, 0, 4, 0)    // node 1
  const WIDE := Full(Change, TRIO, 0, 4, 4)     // node 0
  const LATE := Full(Commit, TRIO, 0, 4, 4)     // node 1 again, at the end

  const ACCEPTS0: seq<Membership> := [Membership(1, {0}), Membership(2, {0}), Membership(3, PAIR), Membership(4, PAIR)]
  const ACCEPTS1: seq<Membership> := [Membership(1, {1}), Membership(2, {1}), Membership(4, PAIR)]

  // ------------------------------------------------------------------- node 0

  // Node 0 goes through the states Z0 to Z12, node 1 through Y0 to Y10 and node 2
  // through X0 to X5; N marks a state in which a ping has only been noted.

  function Node0(view: View, v1: View, v2: View, changed: bool, clique: set<nat>, accepts: nat): Supervisor
    requires accepts <= 4
  {
    Supervisor(0, 1, view, map[1 := Info(v1), 2 := Info(v2)], false, changed, clique, ACCEPTS0[..accepts],
               if view.committed == 4 then [Membership(4, PAIR)] else [])
  }

  const Z0 := Supervisor(0, 1, LONE0, map[], false, false, {}, [], [])
  const Z1N := Supervisor(0, 1, View(Change, 2, PAIR, {0}, 0, 0, 0), map[1 := Info(LONE1)], true, true, {}, [], [])
  const Z1 := AcceptClique(Z1N, 1)
  const Z2 := Supervisor(0, 1, Full(Accept, {0}, 0, 1, 0), map[1 := Info(LONE1), 2 := Info(LONE2)],
                         true, true, {0}, [Membership(1, {0})], [])
  const Z3 := Node0(SEES0, LONE1, LONE2, false, {0}, 1)
  const Z4N := Node0(SEES0, SEES1, LONE2, true, {0}, 1)
  const Z4 := AcceptClique(Z4N, 2)
  const Z5 := Node0(PAIRED, SEES1, LONE2, false, {0}, 2)
  const Z6N := Node0(PAIRED, PAIRED, LONE2, true, {0}, 2)
  const Z6 := AcceptClique(Z6N, 3)
  const Z7 := Node0(REPAIRED, PAIRED, LONE2, false, PAIR, 3)
  const Z8 := Node0(OFFER, PAIRED, LONE2, false, PAIR, 4)
  const Z9N := Node0(OFFER, OFFER, LONE2, false, PAIR, 4)
  const Z9 := Node0(DONE, OFFER, LONE2, false, PAIR, 4)
  const Z10 := Node0(DONE, OFFER, JOINED, true, PAIR, 4)
  const Z11 := Node0(WIDE, OFFER, JOINED, false, PAIR, 4)
  const Z12 := Node0(WIDE, LATE, JOINED, false, PAIR, 4)

  lemma FirstsOf()
    ensures First({0}) == 0 && First({1}) == 1 && First({2}) == 2 && First(PAIR) == 0 && First(TRIO) == 0
  {
  }

  lemma Notes0()
    ensures UpdateNodeInfo(Z0, Ping(1, 1, LONE1), 3) == Z1N
    ensures UpdateNodeInfo(Z1, Ping(2, 1, LONE2), 3) == Z2
  {
    assert {0} + {1} == PAIR && PAIR + {2} == TRIO;
  }

  lemma Renews0()
    ensures UpdateNodeInfo(Z3, Ping(1, 1, SEES1), 3) == Z4N
    ensures UpdateNodeInfo(Z5, Ping(1, 1, PAIRED), 3) == Z6N
    ensures UpdateNodeInfo(Z8, Ping(1, 1, OFFER), 3) == Z9N
    ensures UpdateNodeInfo(Z9, Ping(2, 1, JOINED), 3) == Z10
    ensures UpdateNodeInfo(Z11, Ping(1, 1, LATE), 3) == Z12
  {
    assert 0 in TRIO && 0 !in {1} && 0 !in {2};
  }

  lemma Reacts0()
    ensures React(Z1N, Ping(1, 1, LONE1)) == Z1
    ensures React(Z2, Ping(2, 1, LONE2)) == Z2
    ensures React(Z4N, Ping(1, 1, SEES1)) == Z4
    ensures React(Z6N, Ping(1, 1, PAIRED)) == Z6
    ensures React(Z7, Ping(0, 1, REPAIRED)) == Z8
  {
    ProposesNext(Z1N, Ping(1, 1, LONE1));
    ProposesNext(Z4N, Ping(1, 1, SEES1));
    ProposesNext(Z6N, Ping(1, 1, PAIRED));
    ProposesNext(Z7, Ping(0, 1, REPAIRED));
    assert ACCEPTS0[..3] + [Membership(4, PAIR)] == ACCEPTS0[..4];
  }

  lemma Ends0()
    ensures React(Z9N, Ping(1, 1, OFFER)) == Z9
    ensures React(Z10, Ping(2, 1, JOINED)) == Z10
    ensures React(Z12, Ping(1, 1, LATE)) == Z12
  {
    assert CliqueHasAccepted(Z9N, 4);
  }

  lemma Sends0()
    ensures Z3 == PostPing(WithClique(Z2, {0})) && Z5 == PostPing(WithClique(Z4, PAIR))
    ensures Z7 == PostPing(WithClique(Z6, PAIR)) && Z11 == PostPing(WithClique(Z10, TRIO))
  {
    FirstsOf();
    assert ACCEPTS0[..1] == [Membership(1, {0})];
    assert ACCEPTS0[..1] + [Membership(2, {0})] == ACCEPTS0[..2];
    assert ACCEPTS0[..2] + [Membership(3, PAIR)] == ACCEPTS0[..3];
  }

  // ------------------------------------------------------------------- node 1

  function Node1(view: View, v0: View, v2: View, changed: bool, clique: set<nat>, accepts: nat): Supervisor
    requires accepts <= 3
  {
    Supervisor(1, 1, view, map[0 := Info(v0), 2 := Info(v2)], false, changed, clique, ACCEPTS1[..accepts],
               if view.committed == 4 then [Membership(4, PAIR)] else [])
  }

  const Y0 := Supervisor(1, 1, LONE1, map[], false, false, {}, [], [])
  const Y1N := Supervisor(1, 1, View(Change, 2, PAIR, {1}, 1, 0, 0), map[0 := Info(LONE0)], true, true, {}, [], [])
  const Y1 := AcceptClique(Y1N, 1)
  const Y2 := Supervisor(1, 1, Full(Accept, {1}, 1, 1, 0), map[0 := Info(LONE0), 2 := Info(LONE2)],
                         true, true, {1}, [Membership(1, {1})], [])
  const Y3 := Node1(SEES1, LONE0, LONE2, false, {1}, 1)
  const Y4N := Node1(SEES1, SEES0, LONE2, true, {1}, 1)
  const Y4 := AcceptClique(Y4N, 2)
  const Y5 := Node1(PAIRED, SEES0, LONE2, false, {1}, 2)
  const Y6N := Node1(PAIRED, OFFER, LONE2, false, {1}, 2)
  const Y6 := Node1(OFFER, OFFER, LONE2, false, PAIR, 3)
  const Y7 := Node1(OFFER, OFFER, JOINED, true, PAIR, 3)
  const Y8 := Node1(WIDER, OFFER, JOINED, false, PAIR, 3)
  const Y9N := Node1(WIDER, DONE, JOINED, false, PAIR, 3)
  const Y9 := Node1(LATE, DONE, JOINED, false, PAIR, 3)
  const Y10 := Node1(LATE, WIDE, JOINED, false, PAIR, 3)

  lemma Notes1()
    ensures UpdateNodeInfo(Y0, Ping(0, 1, LONE0), 3) == Y1N
    ensures UpdateNodeInfo(Y1, Ping(2, 1, LONE2), 3) == Y2
  {
    assert {1} + {0} == PAIR && PAIR + {2} == TRIO;
  }

  lemma Renews1()
    ensures UpdateNodeInfo(Y3, Ping(0, 1, SEES0), 3) == Y4N
    ensures UpdateNodeInfo(Y5, Ping(0, 1, OFFER), 3) == Y6N
    ensures UpdateNodeInfo(Y6, Ping(2, 1, JOINED), 3) == Y7
    ensures UpdateNodeInfo(Y8, Ping(0, 1, DONE), 3) == Y9N
    ensures UpdateNodeInfo(Y9, Ping(0, 1, WIDE), 3) == Y10
  {
    assert 1 in TRIO && 1 !in {0} && 1 !in {2};
  }

  lemma Reacts1()
    ensures React(Y1N, Ping(0, 1, LONE0)) == Y1
    ensures React(Y2, Ping(2, 1, LONE2)) == Y2
    ensures React(Y4N, Ping(0, 1, SEES0)) == Y4
    ensures React(Y6N, Ping(0, 1, OFFER)) == Y6
  {
    ProposesNext(Y1N, Ping(0, 1, LONE0));
    ProposesNext(Y4N, Ping(0, 1, SEES0));
    assert ACCEPTS1[..2] + [Membership(4, PAIR)] == ACCEPTS1[..3];
  }

  lemma Ends1()
    ensures React(Y7, Ping(2, 1, JOINED)) == Y7
    ensures React(Y9N, Ping(0, 1, DONE)) == Y9
    ensures React(Y10, Ping(0, 1, WIDE)) == Y10
  {
  }

  lemma Sends1()
    ensures Y3 == PostPing(WithClique(Y2, {1})) && Y5 == PostPing(WithClique(Y4, PAIR))
    ensures Y8 == PostPing(WithClique(Y7, TRIO))
  {
    FirstsOf();
    assert ACCEPTS1[..1] == [Membership(1, {1})];
    assert ACCEPTS1[..1] + [Membership(2, {1})] == ACCEPTS1[..2];
  }

  // ------------------------------------------------------------------- node 2

  const X0 := Supervisor(2, 1, LONE2, map[], false, false, {}, [], [])
  const X1 := Supervisor(2, 1, View(Change, 3, {0, 2}, {2}, 2, 0, 0), map[0 := Info(DONE)], true, true, {}, [], [])
  const X2 := Supervisor(2, 1, Full(Change, {2}, 2, 0, 0), map[0 := Info(DONE), 1 := Info(OFFER)],
                         true, true, {}, [], [])
  const X3 := Supervisor(2, 1, JOINED, map[0 := Info(DONE), 1 := Info(OFFER)], false, false, {}, [], [])
  const X4 := Supervisor(2, 1, JOINED, map[0 := Info(WIDE), 1 := Info(OFFER)], false, false, {}, [], [])
  const X5 := Supervisor(2, 1, JOINED, map[0 := Info(WIDE), 1 := Info(LATE)], false, false, {}, [], [])

  lemma Steps2()
    ensures UpdateNodeInfo(X0, Ping(0, 1, DONE), 3) == X1 && React(X1, Ping(0, 1, DONE)) == X1
    ensures UpdateNodeInfo(X1, Ping(1, 1, OFFER), 3) == X2 && React(X2, Ping(1, 1, OFFER)) == X2
    ensures X3 == PostPing(WithClique(X2, TRIO))
  {
    FirstsOf();
    assert {2} + {0} == {0, 2} && {0, 2} + {1} == TRIO;
    assert 0 in TRIO && 0 !in {2};
  }

  lemma Ends2()
    ensures UpdateNodeInfo(X3, Ping(0, 1, WIDE), 3) == X4 && React(X4, Ping(0, 1, WIDE)) == X4
    ensures UpdateNodeInfo(X4, Ping(1, 1, LATE), 3) == X5 && React(X5, Ping(1, 1, LATE)) == X5
  {
    assert 0 in TRIO && 0 !in X5.acceptedClique;
  }

  // ------------------------------------------------------------------- the run

  const LONELY := {Ping(0, 1, LONE0), Ping(1, 1, LONE1), Ping(2, 1, LONE2)}

  lemma AtLess(a: Supervisor, b: Supervisor, c: Supervisor, pings: set<Ping>, fewer: set<Ping>)
    requires At(a, b, c, pings) && fewer <= pings
    ensures At(a, b, c, fewer)
  {
    var run: seq<Cluster>, events: seq<Agreement.Event> :|
      IsRun(run, events) && run[|events|].nodes == [a, b, c] && pings <= run[|events|].sent;
  }

  /** A marked node that nobody sees sends. */
  lemma SendsLonely(a: Supervisor, b: Supervisor, c: Supervisor, pings: set<Ping>, i: nat, t: Supervisor)
    requires At(a, b, c, pings) && i < 3 && Young(Pick(a, b, c, i)) && Marked(Pick(a, b, c, i))
    requires forall n | n in Pick(a, b, c, i).others ::
               Pick(a, b, c, i).self !in Pick(a, b, c, i).others[n].view.nodesSeen
    requires t == PostPing(WithClique(Pick(a, b, c, i), {Pick(a, b, c, i).self}))
    ensures AtWith(a, b, c, pings + {Told(t)}, i, t)
  {
    AtKeepsInv(a, b, c, pings);
    LonelyHas(Pick(a, b, c, i));
    SendsClique(a, b, c, pings, i, {Pick(a, b, c, i).self}, t);
  }

  /** A node that has just started sends. */
  lemma OneStarts(a: Supervisor, b: Supervisor, c: Supervisor, pings: set<Ping>, i: nat, t: Supervisor)
    requires At(a, b, c, pings) && i < 3 && Pick(a, b, c, i) == Started(i, 1)
    requires t == PostPing(WithClique(Started(i, 1), {i}))
    ensures AtWith(a, b, c, pings + {Told(t)}, i, t)
  {
    SendsLonely(a, b, c, pings, i, t);
  }

  lemma Starts()
    ensures Z0 == PostPing(WithClique(Started(0, 1), {0})) && Y0 == PostPing(WithClique(Started(1, 1), {1}))
    ensures X0 == PostPing(WithClique(Started(2, 1), {2}))
  {
    FirstsOf();
  }

  /** All three start and send. */
  lemma AllStart()
    ensures At(Z0, Y0, X0, LONELY)
  {
    AtStart();
    Starts();
    OneStarts(Started(0, 1), Started(1, 1), Started(2, 1), {}, 0, Z0);
    OneStarts(Z0, Started(1, 1), Started(2, 1), {} + {Told(Z0)}, 1, Y0);
    OneStarts(Z0, Y0, Started(2, 1), {} + {Told(Z0)} + {Told(Y0)}, 2, X0);
    AtLess(Z0, Y0, X0, {} + {Told(Z0)} + {Told(Y0)} + {Told(X0)}, LONELY);
  }

  /** Nodes 0 and 1 hear the first pings. */
  lemma TwoHear()
    ensures At(Z2, Y2, X0, LONELY)
  {
    AllStart();
    Notes0();
    Reacts0();
    Gets(Z0, Y0, X0, LONELY, 0, Ping(1, 1, LONE1), Z1N, Z1);
    Gets(Z1, Y0, X0, LONELY, 0, Ping(2, 1, LONE2), Z2, Z2);
    Notes1();
    Reacts1();
    Gets(Z2, Y0, X0, LONELY, 1, Ping(0, 1, LONE0), Y1N, Y1);
    Gets(Z2, Y1, X0, LONELY, 1, Ping(2, 1, LONE2), Y2, Y2);
  }

  const SIGHTS := {Ping(0, 1, SEES0), Ping(1, 1, SEES1)}

  lemma TwoTell()
    ensures At(Z3, Y3, X0, SIGHTS)
  {
    TwoHear();
    Sends0();
    SendsLonely(Z2, Y2, X0, LONELY, 0, Z3);
    Sends1();
    SendsLonely(Z3, Y2, X0, LONELY + {Told(Z3)}, 1, Y3);
    AtLess(Z3, Y3, X0, LONELY + {Told(Z3)} + {Told(Y3)}, SIGHTS);
  }

  /** Nodes 0 and 1 hear that they see each other. */
  lemma TwoMeet()
    ensures At(Z4, Y4, X0, SIGHTS)
  {
    TwoTell();
    Renews0();
    Reacts0();
    Gets(Z3, Y3, X0, SIGHTS, 0, Ping(1, 1, SEES1), Z4N, Z4);
    Renews1();
    Reacts1();
    Gets(Z4, Y3, X0, SIGHTS, 1, Ping(0, 1, SEES0), Y4N, Y4);
  }

  /** They form a pair, in which node 0 is the coordinator. */
  lemma TwoPair()
    ensures At(Z5, Y5, X0, {Ping(1, 1, PAIRED)})
  {
    TwoMeet();
    Sends0();
    PairHas(Z4, 1);
    SendsClique(Z4, Y4, X0, SIGHTS, 0, PAIR, Z5);
    Sends1();
    PairHas(Y4, 0);
    SendsClique(Z5, Y4, X0, SIGHTS + {Told(Z5)}, 1, PAIR, Y5);
    AtLess(Z5, Y5, X0, SIGHTS + {Told(Z5)} + {Told(Y5)}, {Ping(1, 1, PAIRED)});
  }

  /** Node 0 proposes the pair. */
  lemma PairIsProposed()
    ensures At(Z8, Y5, X0, {Ping(0, 1, OFFER)})
  {
    var pings := {Ping(1, 1, PAIRED)};
    TwoPair();
    Renews0();
    Reacts0();
    Gets(Z5, Y5, X0, pings, 0, Ping(1, 1, PAIRED), Z6N, Z6);
    Sends0();
    PairHas(Z6, 1);
    SendsClique(Z6, Y5, X0, pings, 0, PAIR, Z7);
    Gets(Z7, Y5, X0, pings + {Told(Z7)}, 0, Ping(0, 1, REPAIRED), Z7, Z8);
    SendsAgain(Z8, Y5, X0, pings + {Told(Z7)}, 0);
    AtLess(Z8, Y5, X0, pings + {Told(Z7)} + {Told(Z8)}, {Ping(0, 1, OFFER)});
  }

  const PACT := {Ping(0, 1, DONE), Ping(1, 1, OFFER)}

  /** Node 1 accepts the pair. */
  lemma PairIsAccepted()
    ensures At(Z8, Y6, X0, {Ping(1, 1, OFFER)})
  {
    var pings := {Ping(0, 1, OFFER)};
    PairIsProposed();
    Renews1();
    Reacts1();
    Gets(Z8, Y5, X0, pings, 1, Ping(0, 1, OFFER), Y6N, Y6);
    SendsAgain(Z8, Y6, X0, pings, 1);
    AtLess(Z8, Y6, X0, pings + {Told(Y6)}, {Ping(1, 1, OFFER)});
  }

  /** Node 0 commits it. */
  lemma PairIsCommitted()
    ensures At(Z9, Y6, X0, PACT)
  {
    var pings := {Ping(1, 1, OFFER)};
    PairIsAccepted();
    Renews0();
    Ends0();
    Gets(Z8, Y6, X0, pings, 0, Ping(1, 1, OFFER), Z9N, Z9);
    SendsAgain(Z9, Y6, X0, pings, 0);
    AtLess(Z9, Y6, X0, pings + {Told(Z9)}, PACT);
  }

  /** Node 2 hears the others, and joins them. */
  lemma ThirdJoins()
    ensures At(Z9, Y6, X3, PACT + {Ping(2, 1, JOINED)})
  {
    PairIsCommitted();
    Steps2();
    Gets(Z9, Y6, X0, PACT, 2, Ping(0, 1, DONE), X1, X1);
    Gets(Z9, Y6, X1, PACT, 2, Ping(1, 1, OFFER), X2, X2);
    SendsTrio(Z9, Y6, X2, PACT, 2, X3);
  }

  lemma OneHears()
    ensures At(Z9, Y7, X3, PACT + {Ping(2, 1, JOINED)})
  {
    ThirdJoins();
    Renews1();
    Ends1();
    Gets(Z9, Y6, X3, PACT + {Ping(2, 1, JOINED)}, 1, Ping(2, 1, JOINED), Y7, Y7);
  }

  /** Node 1 takes over the new clique. */
  lemma OneWidens()
    ensures At(Z9, Y8, X3, PACT + {Ping(2, 1, JOINED)})
  {
    var pings := PACT + {Ping(2, 1, JOINED)};
    OneHears();
    Sends1();
    SendsTrio(Z9, Y7, X3, pings, 1, Y8);
    AtLess(Z9, Y8, X3, pings + {Told(Y8)}, pings);
  }

  /** Only then it hears of the commit. */
  lemma OneFollows()
    ensures At(Z9, Y9, X3, PACT + {Ping(2, 1, JOINED)})
  {
    OneWidens();
    Renews1();
    Ends1();
    Gets(Z9, Y8, X3, PACT + {Ping(2, 1, JOINED)}, 1, Ping(0, 1, DONE), Y9N, Y9);
  }

  lemma ZeroHears()
    ensures At(Z10, Y9, X3, PACT + {Ping(2, 1, JOINED)})
  {
    OneFollows();
    Renews0();
    Ends0();
    Gets(Z9, Y9, X3, PACT + {Ping(2, 1, JOINED)}, 0, Ping(2, 1, JOINED), Z10, Z10);
  }

  /** Node 0 takes over the new clique. */
  lemma ZeroWidens()
    ensures At(Z11, Y9, X3, {Ping(0, 1, WIDE)})
  {
    var pings := PACT + {Ping(2, 1, JOINED)};
    ZeroHears();
    Sends0();
    SendsTrio(Z10, Y9, X3, pings, 0, Z11);
    AtLess(Z11, Y9, X3, pings + {Told(Z11)}, {Ping(0, 1, WIDE)});
  }

  /** Node 1 sends once more. */
  lemma AllJoin()
    ensures At(Z11, Y9, X3, {Ping(0, 1, WIDE), Ping(1, 1, LATE)})
  {
    ZeroWidens();
    SendsAgain(Z11, Y9, X3, {Ping(0, 1, WIDE)}, 1);
    AtLess(Z11, Y9, X3, {Ping(0, 1, WIDE)} + {Told(Y9)}, {Ping(0, 1, WIDE), Ping(1, 1, LATE)});
  }

  /** All have each other's views. */
  lemma AllKnow()
    ensures At(Z12, Y10, X5, {})
  {
    var pings := {Ping(0, 1, WIDE), Ping(1, 1, LATE)};
    AllJoin();
    Renews0();
    Ends0();
    Gets(Z11, Y9, X3, pings, 0, Ping(1, 1, LATE), Z12, Z12);
    Renews1();
    Ends1();
    Gets(Z12, Y9, X3, pings, 1, Ping(0, 1, WIDE), Y10, Y10);
    Ends2();
    Gets(Z12, Y10, X3, pings, 2, Ping(0, 1, WIDE), X4, X4);
    Gets(Z12, Y10, X4, pings, 2, Ping(1, 1, LATE), X5, X5);
    AtLess(Z12, Y10, X5, pings, {});
  }

  // ------------------------------------------------------------------ stranded

  const ALL := Setting(map[0 := TRIO, 1 := TRIO, 2 := TRIO], TRIO, 0, 3)

  lemma AllIsGood()
    ensures Good(ALL) && ALL.Coord() == 0
  {
    FirstsOf();
    FullTable(ALL.table, TRIO);
  }

  /** When all see all, the clique is all of them. */
  lemma FullTable(t: Sight, k: set<nat>)
    requires t.Keys == k && InRange(k) && forall n | n in t :: t[n] == k
    ensures InRange(t.Keys) && SelfSeeing(t)
    ensures forall i {:trigger CliqueOf(t, i)} | i in k :: CliqueOf(t, i) == k
  {
    forall i {:trigger CliqueOf(t, i)} | i in k ensures CliqueOf(t, i) == k {
      FullTableAt(t, k, i);
    }
  }

  lemma FullTableAt(t: Sight, k: set<nat>, i: nat)
    requires t.Keys == k && InRange(k) && (forall n | n in t :: t[n] == k) && i in k
    ensures InRange(t.Keys) && SelfSeeing(t) && CliqueOf(t, i) == k
  {
    CleanSplitGivesSides(t, i);
  }

  lemma TablesOfAll()
    ensures Z12.Table() == ALL.table && Y10.Table() == ALL.table && X5.Table() == ALL.table
  {
    assert Z12.Known() == TRIO && Y10.Known() == TRIO && X5.Known() == TRIO;
  }

  lemma LastIsSettled(c: Cluster)
    requires c.nodes == [Z12, Y10, X5]
    ensures Settled(c, ALL) && !CanMove(c, ALL, 1)
  {
    AllIsGood();
    TablesOfAll();
    assert forall i | i in TRIO :: i == 0 || i == 1 || i == 2;
  }

  /** Equal tables and known views are not enough: a run after which all three
      nodes see each other, know each other's views and have taken over the new
      clique, and yet cannot agree on it. Node 1 has delivered the pair only. */
  lemma MemberIsStranded() returns (run: seq<Cluster>, events: seq<Agreement.Event>, x: Setting)
    ensures IsRun(run, events) && Settled(run[|events|], x) && x.clique == {0, 1, 2}
    ensures |run[|events|].nodes| == 3 && run[|events|].nodes[1].delivered == [Membership(4, {0, 1})]
    ensures forall i | i in x.clique :: run[|events|].nodes[i].view.clique == x.clique
    ensures !CanAgree(run[|events|], x)
  {
    AllKnow();
    run, events :| IsRun(run, events) && run[|events|].nodes == [Z12, Y10, X5] && {} <= run[|events|].sent;
    x := ALL;
    LastIsSettled(run[|events|]);
    AgreementIsReachedIff(run, events, |events|, x);
  }
}
