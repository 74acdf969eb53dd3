/**
 The recovery engine of admind on the leader (admind/src/instance.c): the
 state of one service, the events and the phases of a recovery.
 */
module Recovery {

  datatype Op = Nothing | CheckDown | Down | Up | CheckUp

  /** adm_service_state_t */
  datatype Service = Service(
    committed: set<nat>,   // nodes recovered up since they last went down
    checkDown: nat,        // pending check down events
    checkUp: nat,          // pending check up events
    down: set<nat>,        // nodes that went down since the last recovery
    up: set<nat>,          // nodes that are up
    resDown: bool,         // resources changed
    resUp: bool,
    involved: set<nat>,    // nodes that triggered the operation in progress
    op: Op)
  {
    /** The nodes being recovered up. */
    function GoingUp(): set<nat> {
      if op == Up then involved else {}
    }

    /** The nodes on which the service is up and not waiting to go down. */
    function Live(): set<nat> {
      committed - down
    }
  }

  const FRESH := Service({}, 0, 0, {}, {}, false, false, {}, Nothing)

  // ------------------------------------------------------------------ events

  /** inst_evt_up, for one service */
  function NodeUp(s: Service, x: nat): Service {
    s.(up := s.up + {x},
       down := if x !in s.committed && x !in s.GoingUp() then s.down - {x} else s.down)
  }

  /** inst_evt_down, for one service; me is the local node, which has quorum. */
  function NodeDown(s: Service, me: nat, x: nat): Service {
    var t := s.(up := s.up - {x});
    if x !in s.committed && x !in s.GoingUp() then t
    else if me !in s.committed && me !in s.GoingUp() then t
    else t.(down := s.down + {x})
  }

  function CheckDownEvent(s: Service): Service {
    s.(checkDown := s.checkDown + 1)
  }

  function CheckUpEvent(s: Service): Service {
    s.(checkUp := s.checkUp + 1)
  }

  /** inst_set_resources_changed_down */
  function ResourceDown(s: Service, me: nat): Service {
    if me in s.committed then s.(resDown := true) else s
  }

  /** inst_set_resources_changed_up */
  function ResourceUp(s: Service, me: nat): Service {
    if me in s.committed then s.(resUp := true) else s
  }

  // ------------------------------------------------------- choosing a recovery

  /** inst_op_wanted_by_service */
  predicate Wants(s: Service, op: Op) {
    if op != Up && s.committed == {} then false
    else
      match op
      case CheckDown => s.checkDown > 0
      case Down => s.down != {} || s.resDown
      case Up => s.up - s.committed != {} || s.resUp
      case CheckUp => s.checkUp > 0
      case Nothing => false
  }

  /** inst_op_wanted */
  predicate Wanted(services: seq<Service>, op: Op) {
    exists k :: 0 <= k < |services| && Wants(services[k], op)
  }

  /** inst_which_recovery */
  function Which(services: seq<Service>): Op {
    if Wanted(services, CheckDown) then CheckDown
    else if Wanted(services, Down) then Down
    else if Wanted(services, Up) then Up
    else if Wanted(services, CheckUp) then CheckUp
    else Nothing
  }

  /** inst_compute_involved_in_op */
  function Involve(s: Service, op: Op): Service {
    if !Wants(s, op) then s.(op := Nothing, involved := {})
    else
      s.(op := op,
         involved := match op
                     case Down => s.down
                     case Up => s.up - s.committed
                     case CheckDown => {}
                     case CheckUp => {}
                     case Nothing => s.involved)
  }

  /** What inst_local_sync_before_recovery asserts on node me: a node that does
      not come up with this recovery knows where the service is up. */
  predicate CanSync(s: Service, me: nat, l: Service) {
    (l.op == Up && me in l.involved) || s.committed == l.committed
  }

  /** inst_local_sync_before_recovery on node me, in state s, when the leader is
      in state l. For a node that comes up, all others come up too. */
  function SyncBefore(s: Service, me: nat, l: Service): Service
    requires CanSync(s, me, l)
  {
    s.(op := l.op, involved := if l.op == Up && me in l.involved then l.involved + l.committed else l.involved)
  }

  // ----------------------------------------------------- finishing a recovery

  /** The members committed by inst_sync_after_recovery. */
  function NewCommitted(s: Service): set<nat> {
    match s.op
    case Up => s.committed + s.involved
    case Down => s.committed - s.involved
    case _ => s.committed
  }

  /** inst_local_sync_after_recovery; the program asserts the precondition. */
  function LocalSyncAfter(s: Service, committed: set<nat>, handled: nat): Service
    requires s.op == CheckDown ==> handled <= s.checkDown
  {
    var t := s.(committed := committed);
    var u := match s.op
      case Up => t.(resUp := false)
      case Down => t.(down := s.down - s.involved, resDown := false)
      case CheckDown => t.(checkDown := s.checkDown - handled)
      case CheckUp => t.(checkUp := if s.checkUp < handled then 0 else s.checkUp - handled)
      case Nothing => t;
    u.(op := Nothing, involved := {})
  }

  /** inst_sync_after_recovery on the leader. */
  function Finish(s: Service, handled: nat): Service
    requires s.op == CheckDown ==> handled <= s.checkDown
  {
    LocalSyncAfter(s, NewCommitted(s), handled)
  }

  // ------------------------------------------------------------ the invariant

  /** What holds of node x in one service, nodes being the nodes that are up. */
  predicate NodeOk(nodes: set<nat>, s: Service, x: nat) {
    && (x in s.up <==> x in nodes)
    && ((x in s.committed || x in s.GoingUp()) && x !in s.down ==> x in nodes)
    && (s.op == Up && x in s.involved ==> x !in s.committed)
    && (s.op == Down && x in s.involved && x in s.committed ==> x in s.down)
  }

  /** What holds of the local node in one service. */
  predicate LocalOk(s: Service, me: nat) {
    && me in s.up
    && (s.committed != {} ==> me in s.committed)
    && me !in s.down
    && (s.op == Up ==> me in s.committed || me in s.involved)
    && (s.op == Down ==> me !in s.involved)
    && (s.resDown || s.resUp ==> me in s.committed)
  }

  ghost predicate OneOk(me: nat, nodes: set<nat>, s: Service) {
    LocalOk(s, me) && forall x :: NodeOk(nodes, s, x)
  }

  /** What holds of node x in a service b and in the service a below it. */
  predicate NodePairOk(a: Service, b: Service, x: nat) {
    && (x in b.committed && x !in b.down ==> x in a.committed && x !in a.down)
    && (x in a.down && x !in a.committed ==> x in b.down)
    && (x in a.GoingUp() ==> x in b.GoingUp())
    && (x in b.GoingUp() && x !in b.down ==> (x in a.committed || x in a.GoingUp()) && x !in a.down)
    && (b.op == Down && x in b.involved && x in a.down ==> x in a.committed || (a.op == Down && x in a.involved))
  }

  ghost predicate PairOk(a: Service, b: Service) {
    && (a.op == Nothing || b.op == Nothing || a.op == b.op)
    && forall x :: NodePairOk(a, b, x)
  }

  lemma NodeUpKeepsOne(me: nat, nodes: set<nat>, s: Service, x: nat)
    requires OneOk(me, nodes, s)
    ensures OneOk(me, nodes + {x}, NodeUp(s, x))
  {
    forall y ensures NodeOk(nodes + {x}, NodeUp(s, x), y) { assert NodeOk(nodes, s, y); }
  }

  lemma NodeUpKeepsPair(me: nat, nodes: set<nat>, a: Service, b: Service, x: nat)
    requires OneOk(me, nodes, a) && OneOk(me, nodes, b) && PairOk(a, b)
    ensures PairOk(NodeUp(a, x), NodeUp(b, x))
  {
    forall y ensures NodePairOk(NodeUp(a, x), NodeUp(b, x), y) { assert NodePairOk(a, b, y); }
  }

  /** A node that goes down becomes pending exactly if the service has it or is
      bringing it up, and so the local node: a node that does not take part in a
      service notes nothing for it. */
  lemma NodeDownIff(s: Service, me: nat, x: nat, y: nat)
    ensures y in NodeDown(s, me, x).down <==>
            || y in s.down
            || (y == x && (x in s.committed || x in s.GoingUp()) && (me in s.committed || me in s.GoingUp()))
  {
  }

  /** A node that goes down becomes pending in every service that has it: the
      test on the local node never drops the event on the leader. */
  lemma NodeDownIsKept(me: nat, nodes: set<nat>, s: Service, x: nat)
    requires OneOk(me, nodes, s)
    ensures x in s.committed || x in s.GoingUp() ==> x in NodeDown(s, me, x).down
  {
  }

  lemma NodeDownKeepsOne(me: nat, nodes: set<nat>, s: Service, x: nat)
    requires OneOk(me, nodes, s) && x != me
    ensures OneOk(me, nodes - {x}, NodeDown(s, me, x))
  {
    forall y ensures NodeOk(nodes - {x}, NodeDown(s, me, x), y) { assert NodeOk(nodes, s, y); }
  }

  lemma NodeDownKeepsPair(me: nat, nodes: set<nat>, a: Service, b: Service, x: nat)
    requires OneOk(me, nodes, a) && OneOk(me, nodes, b) && PairOk(a, b) && x != me
    ensures PairOk(NodeDown(a, me, x), NodeDown(b, me, x))
  {
    forall y ensures NodePairOk(NodeDown(a, me, x), NodeDown(b, me, x), y) { assert NodePairOk(a, b, y); }
  }

  /** A service that is up anywhere stands on one that is up. */
  lemma LowerIsUp(me: nat, nodes: set<nat>, a: Service, b: Service)
    requires OneOk(me, nodes, a) && OneOk(me, nodes, b) && PairOk(a, b) && b.committed != {}
    ensures a.committed != {}
  {
    assert NodePairOk(a, b, me);
  }

  lemma InvolveKeepsOne(me: nat, nodes: set<nat>, s: Service, op: Op)
    requires OneOk(me, nodes, s)
    ensures OneOk(me, nodes, Involve(s, op))
  {
    if op == Up { assert me in s.up - s.committed || me in s.committed; }
    forall y ensures NodeOk(nodes, Involve(s, op), y) { assert NodeOk(nodes, s, y); }
  }

  lemma InvolveKeepsPair(me: nat, nodes: set<nat>, a: Service, b: Service, op: Op)
    requires OneOk(me, nodes, a) && OneOk(me, nodes, b) && PairOk(a, b)
    requires op == Up ==> !Wants(a, Down) && !Wants(b, Down)
    ensures PairOk(Involve(a, op), Involve(b, op))
  {
    if b.committed != {} { LowerIsUp(me, nodes, a, b); }
    forall y ensures NodePairOk(Involve(a, op), Involve(b, op), y) {
      assert NodePairOk(a, b, y) && NodeOk(nodes, a, y) && NodeOk(nodes, b, y);
      InvolveKeepsNodePair(nodes, a, b, op, y);
    }
  }

  lemma InvolveKeepsNodePair(nodes: set<nat>, a: Service, b: Service, op: Op, y: nat)
    requires NodePairOk(a, b, y) && NodeOk(nodes, a, y) && NodeOk(nodes, b, y)
    requires b.committed != {} ==> a.committed != {}
    requires op == Up ==> !Wants(a, Down) && !Wants(b, Down)
    ensures NodePairOk(Involve(a, op), Involve(b, op), y)
  {
    assert op == Up && y in a.up - a.committed ==> a.up - a.committed != {};
    assert op == Up && y in b.up - b.committed ==> b.up - b.committed != {};
  }

  lemma FinishKeepsOne(me: nat, nodes: set<nat>, s: Service, handled: nat)
    requires OneOk(me, nodes, s)
    requires s.op == CheckDown ==> handled <= s.checkDown
    ensures OneOk(me, nodes, Finish(s, handled))
  {
    forall y ensures NodeOk(nodes, Finish(s, handled), y) { assert NodeOk(nodes, s, y); }
  }

  /** Finishing the upper of two services once the lower is finished. */
  lemma FinishKeepsLower(me: nat, nodes: set<nat>, a: Service, b: Service, handled: nat)
    requires OneOk(me, nodes, a) && OneOk(me, nodes, b) && PairOk(a, b) && a.op == Nothing
    requires b.op == CheckDown ==> handled <= b.checkDown
    ensures PairOk(a, Finish(b, handled))
  {
    forall y ensures NodePairOk(a, Finish(b, handled), y) { assert NodePairOk(a, b, y); }
  }

  lemma FinishKeepsUpper(me: nat, nodes: set<nat>, a: Service, b: Service, handled: nat)
    requires OneOk(me, nodes, a) && OneOk(me, nodes, b) && PairOk(a, b)
    requires a.op == CheckDown ==> handled <= a.checkDown
    ensures PairOk(Finish(a, handled), b)
  {
    forall y ensures NodePairOk(Finish(a, handled), b, y) {
      assert NodePairOk(a, b, y) && NodeOk(nodes, a, y);
    }
  }

  /** On the leader the synchronisation before a recovery changes nothing. */
  lemma SyncBeforeIsIdentity(me: nat, nodes: set<nat>, s: Service)
    requires OneOk(me, nodes, s)
    ensures CanSync(s, me, s) && SyncBefore(s, me, s) == s
  {
    if s.op == Up && me in s.involved {
      assert NodeOk(nodes, s, me);
      assert s.involved + s.committed == s.involved;
    }
  }

  // ---------------------------------------------------------- the other nodes

  /** Node x executes the commands of the recovery that runs on the leader
      (inst_get_current_membership). */
  predicate TakesPart(l: Service, x: nat) {
    && (x in l.committed || x in l.GoingUp())
    && !(l.op == Down && x in l.involved)
    && !(l.op == CheckDown && x in l.down)
  }

  /** Node x, in state f, knows where the service is up if it has the service, and
      otherwise has started without it. */
  predicate Mirrors(f: Service, x: nat, l: Service) {
    f.committed == if x in l.committed then l.committed else {}
  }

  /** The assertion of inst_local_sync_before_recovery holds on every node that
      takes part. */
  lemma SyncIsAllowed(f: Service, x: nat, l: Service)
    requires Mirrors(f, x, l) && TakesPart(l, x)
    ensures CanSync(f, x, l)
  {
  }

  /** While a recovery up runs, the nodes that a node has and those that come up
      for it are all that will have the service, on old nodes and new ones. */
  lemma NewcomersSeeAll(f: Service, x: nat, l: Service)
    requires Mirrors(f, x, l) && TakesPart(l, x) && l.op == Up && CanSync(f, x, l) && l.committed !! l.involved
    ensures SyncBefore(f, x, l).committed + SyncBefore(f, x, l).GoingUp() == NewCommitted(l)
    ensures SyncBefore(f, x, l).committed !! SyncBefore(f, x, l).GoingUp()
  {
  }

  /** A finished recovery leaves every node that takes part with what the leader
      has, and with no recovery in progress. */
  lemma FollowersAgree(f: Service, x: nat, l: Service, handled: nat)
    requires Mirrors(f, x, l) && TakesPart(l, x) && CanSync(f, x, l)
    requires l.op == CheckDown ==> handled <= l.checkDown && handled <= f.checkDown
    ensures var g, m := LocalSyncAfter(SyncBefore(f, x, l), NewCommitted(l), handled), Finish(l, handled);
            && Mirrors(g, x, m) && x in m.committed && g.committed == m.committed
            && g.op == Nothing && g.involved == {}
            && (l.op == Down ==> g.down == f.down - l.involved)
  {
  }
}
