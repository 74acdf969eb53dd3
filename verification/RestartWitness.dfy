/**
 A restart that makes a coordinator commit too early (csupd/src/exa_csupd.c):
 the pings that one of three supervisors sends and gets from its start on.
 */
module RestartWitness {
  import opened Common
  import opened Clique
  import opened SupView
  import opened Supervision
  import opened Agreement
  import opened SupervisorPaths

  // ----------------------------------------------------------------- sending

  predicate Young(s: Supervisor) {
    forall n | n in s.others :: s.others[n].lastSeen == 0
  }

  lemma NothingAges(s: Supervisor)
    requires Sound(s) && Young(s)
    ensures Aged(s, 0, 3) == s
  {
    assert Expired(s, 0, 3) == {};
    assert Aged(s, 0, 3).others == s.others;
  }

  /** Sending when nothing has changed since the last ping. */
  lemma QuietSend(s: Supervisor)
    requires Sound(s) && Young(s) && !s.selfChanged && !s.otherChanged
    ensures PostPing(PrePing(s, 0, 3)) == s
  {
    NothingAges(s);
  }

  lemma ChangedSend(s: Supervisor)
    requires Sound(s) && Young(s) && (s.selfChanged || s.otherChanged)
    ensures InRange(s.Table().Keys) && SelfSeeing(s.Table())
    ensures PostPing(PrePing(s, 0, 3)) == PostPing(WithClique(s, CliqueOf(s.Table(), s.self)))
  {
    NothingAges(s);
    AgedIsSound(s, 0, 3);
  }

  /** When all known nodes see each other, all are in the clique. */
  lemma AllInClique(s: Supervisor)
    requires Sound(s) && forall n | n in s.Known() :: s.ViewOf(n).nodesSeen == s.Known()
    ensures InRange(s.Table().Keys) && SelfSeeing(s.Table()) && CliqueOf(s.Table(), s.self) == s.Known()
  {
    assert s.Table().Keys == s.Known();
    CleanSplitGivesSides(s.Table(), s.self);
  }

  lemma SendWithAll(s: Supervisor)
    requires Sound(s) && Young(s) && (s.selfChanged || s.otherChanged)
    requires forall n | n in s.Known() :: s.ViewOf(n).nodesSeen == s.Known()
    ensures PostPing(PrePing(s, 0, 3)) == PostPing(WithClique(s, s.Known()))
  {
    ChangedSend(s);
    AllInClique(s);
  }

  // ------------------------------------------- node 0 on the way to a proposal

  const TRIO: set<nat> := {0, 1, 2}

  /** Nodes 1 and 2 have seen node 0, which has not seen them yet. */
  const PAIR_VIEW := View(Change, 3, TRIO, {1, 2}, 1, 1, 0)

  /** All see all. */
  const TRIO_VIEW := View(Change, 3, TRIO, TRIO, 0, 1, 0)

  function Others(v: View, w: View): map<nat, NodeInfo> {
    map[1 := NodeInfo(1, v, 0), 2 := NodeInfo(1, w, 0)]
  }

  function Own(state: State, clique: set<nat>, accepted: nat): View {
    View(state, 3, TRIO, clique, 0, accepted, 0)
  }

  const ALONE := Supervisor(0, 1, View(Change, 1, {0}, {0}, 0, 0, 0), map[], false, false, {}, [], [])

  const HEARD_ONE := Supervisor(0, 1, View(Accept, 2, {0, 1}, {0}, 0, 2, 0), map[1 := NodeInfo(1, PAIR_VIEW, 0)],
                                true, true, {0}, [Membership(2, {0})], [])

  const HEARD_BOTH := Supervisor(0, 1, Own(Accept, {0}, 2), Others(PAIR_VIEW, PAIR_VIEW),
                                 true, true, {0}, [Membership(2, {0})], [])

  const TOGETHER := Supervisor(0, 1, Own(Change, TRIO, 2), Others(PAIR_VIEW, PAIR_VIEW),
                               false, false, {0}, [Membership(2, {0})], [])

  const HALF := Supervisor(0, 1, Own(Change, TRIO, 2), Others(TRIO_VIEW, PAIR_VIEW),
                           false, true, {0}, [Membership(2, {0})], [])

  const AGREED := Supervisor(0, 1, Own(Accept, TRIO, 3), Others(TRIO_VIEW, TRIO_VIEW),
                             false, true, TRIO, [Membership(2, {0}), Membership(3, TRIO)], [])

  const AGAIN := Supervisor(0, 1, Own(Change, TRIO, 3), Others(TRIO_VIEW, TRIO_VIEW),
                            false, false, TRIO, [Membership(2, {0}), Membership(3, TRIO)], [])

  const PROPOSED := Supervisor(0, 1, Own(Accept, TRIO, 4), Others(TRIO_VIEW, TRIO_VIEW),
                               false, false, TRIO, [Membership(2, {0}), Membership(3, TRIO), Membership(4, TRIO)], [])

  lemma StartsAlone()
    ensures Makes(Started(0, 1), Sent(0, 3), ALONE)
  {
    var s := Started(0, 1);
    StartedKeepsInv(0, 1);
    assert s.Known() == {0};
    SendWithAll(s);
    assert First({0}) == 0;
  }

  lemma HearsOne()
    ensures Makes(ALONE, Got(Ping(1, 1, PAIR_VIEW), 3), HEARD_ONE)
  {
    var n := UpdateNodeInfo(ALONE, Ping(1, 1, PAIR_VIEW), 3);
    assert n.view.nodesSeen == {0, 1};
    assert CliqueSeesSelfAsCoord(n);
    assert MaxGen(n, 1) == 0;
    assert MaxGen(n, 2) == 1;
  }

  lemma HearsBoth()
    ensures Makes(HEARD_ONE, Got(Ping(2, 1, PAIR_VIEW), 3), HEARD_BOTH)
  {
    assert {0, 1} + {2} == TRIO;
  }

  lemma ComesTogether()
    ensures Makes(HEARD_BOTH, Sent(0, 3), TOGETHER)
  {
    assert HEARD_BOTH.Known() == TRIO;
    SendWithAll(HEARD_BOTH);
    assert First(TRIO) == 0;
  }

  lemma HearsHalf()
    ensures Makes(TOGETHER, Got(Ping(1, 1, TRIO_VIEW), 3), HALF)
  {
    var n := UpdateNodeInfo(TOGETHER, Ping(1, 1, TRIO_VIEW), 3);
    assert n == HALF;
    assert 2 in n.view.clique && n.ViewOf(2).clique != n.view.clique by { assert 0 in TRIO && 0 !in {1, 2}; }
    assert !CliqueSeesSelfAsCoord(n);
  }

  lemma MaxGenOf(s: Supervisor, a: nat)
    requires s.self == 0 && s.view == Own(Change, TRIO, a) && s.others == Others(TRIO_VIEW, TRIO_VIEW) && a >= 1
    ensures NextGen(s) == a + 1 && CliqueSeesSelfAsCoord(s)
  {
    assert MaxGen(s, 1) == a;
    assert MaxGen(s, 2) == a;
    assert MaxGen(s, 3) == a;
  }

  lemma Agrees()
    ensures Makes(HALF, Got(Ping(2, 1, TRIO_VIEW), 3), AGREED)
  {
    var n := UpdateNodeInfo(HALF, Ping(2, 1, TRIO_VIEW), 3);
    MaxGenOf(n, 2);
    assert [Membership(2, {0})] + [Membership(3, TRIO)] == AGREED.accepts;
  }

  lemma StartsAgain()
    ensures Makes(AGREED, Sent(0, 3), AGAIN)
  {
    assert AGREED.Known() == TRIO;
    SendWithAll(AGREED);
  }

  lemma Proposes()
    ensures Makes(AGAIN, Got(Ping(1, 1, TRIO_VIEW), 3), PROPOSED)
  {
    var n := UpdateNodeInfo(AGAIN, Ping(1, 1, TRIO_VIEW), 3);
    assert n == AGAIN;
    MaxGenOf(n, 3);
    assert AGAIN.accepts + [Membership(4, TRIO)] == PROPOSED.accepts;
  }

  lemma Announces()
    ensures Makes(PROPOSED, Sent(0, 3), PROPOSED)
  {
    QuietSend(PROPOSED);
  }

  // ------------------------------------------------------------ the restart

  /** The first ping of node 2 after a restart. */
  const RESTART := Ping(2, 2, View(Change, 3, {2}, {2}, 2, 0, 0))

  const LOST := Supervisor(0, 1, View(Accept, 2, {0, 1}, TRIO, 0, 4, 0),
                           map[1 := NodeInfo(1, TRIO_VIEW, 0), 2 := NodeInfo(2, RESTART.view.(state := Unknown), 3)],
                           true, true, TRIO, PROPOSED.accepts, [])

  /** Node 1 has accepted the proposal of node 0. */
  const ACCEPT := Ping(1, 1, View(Accept, 3, TRIO, TRIO, 0, 4, 0))

  lemma LosesTwo()
    ensures Makes(PROPOSED, Got(RESTART, 3), LOST)
  {
    assert TRIO - {2} == {0, 1};
  }

  lemma Commits() returns (t: Supervisor)
    ensures Makes(LOST, Got(ACCEPT, 3), t)
    ensures t.delivered == [Membership(4, TRIO)] && !HasAccepted(t, 2, Membership(4, TRIO))
  {
    t := ProcessPing(LOST, ACCEPT, 3);
    var n := UpdateNodeInfo(LOST, ACCEPT, 3);
    assert n.view == LOST.view;
    assert CliqueHasAccepted(n, 4);
    assert 0 in TRIO && 0 !in {2};
  }

  lemma ProposalIsReached(rest: seq<Step>, t: Supervisor) returns (steps: seq<Step>)
    requires Path(PROPOSED, rest, t)
    ensures Path(Started(0, 1), steps, t)
  {
    Announces();
    PathGrows(PROPOSED, Sent(0, 3), PROPOSED, rest, t);
    steps := [Sent(0, 3)] + rest;
    Proposes();
    PathGrows(AGAIN, Got(Ping(1, 1, TRIO_VIEW), 3), PROPOSED, steps, t);
    steps := [Got(Ping(1, 1, TRIO_VIEW), 3)] + steps;
    StartsAgain();
    PathGrows(AGREED, Sent(0, 3), AGAIN, steps, t);
    steps := [Sent(0, 3)] + steps;
    Agrees();
    PathGrows(HALF, Got(Ping(2, 1, TRIO_VIEW), 3), AGREED, steps, t);
    steps := [Got(Ping(2, 1, TRIO_VIEW), 3)] + steps;
    HearsHalf();
    PathGrows(TOGETHER, Got(Ping(1, 1, TRIO_VIEW), 3), HALF, steps, t);
    steps := [Got(Ping(1, 1, TRIO_VIEW), 3)] + steps;
    ComesTogether();
    PathGrows(HEARD_BOTH, Sent(0, 3), TOGETHER, steps, t);
    steps := [Sent(0, 3)] + steps;
    HearsBoth();
    PathGrows(HEARD_ONE, Got(Ping(2, 1, PAIR_VIEW), 3), HEARD_BOTH, steps, t);
    steps := [Got(Ping(2, 1, PAIR_VIEW), 3)] + steps;
    HearsOne();
    PathGrows(ALONE, Got(Ping(1, 1, PAIR_VIEW), 3), HEARD_ONE, steps, t);
    steps := [Got(Ping(1, 1, PAIR_VIEW), 3)] + steps;
    StartsAlone();
    PathGrows(Started(0, 1), Sent(0, 3), ALONE, steps, t);
    steps := [Sent(0, 3)] + steps;
  }

  /** From its start on, node 0 comes to commit the clique of nodes 0, 1 and 2
      although node 2 has restarted and has not accepted it. */
  lemma RestartedMemberIsSkipped() returns (steps: seq<Step>, t: Supervisor)
    ensures Path(Started(0, 1), steps, t)
    ensures t.delivered == [Membership(4, {0, 1, 2})] && !HasAccepted(t, 2, t.delivered[0])
  {
    t := Commits();
    LosesTwo();
    assert Path(t, [], t);
    PathGrows(LOST, Got(ACCEPT, 3), t, [], t);
    PathGrows(PROPOSED, Got(RESTART, 3), LOST, [Got(ACCEPT, 3)] + [], t);
    steps := ProposalIsReached([Got(RESTART, 3)] + ([Got(ACCEPT, 3)] + []), t);
  }
}
