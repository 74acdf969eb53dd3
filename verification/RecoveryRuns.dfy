/**
 Runs of the recovery engine on the leader (admind/src/instance.c,
 admind/src/evmgr/evmgr.c): events reach the services at any time, also in the
 middle of a recovery, and a recovery can be interrupted between any two
 services. The local node stays up and the quorum is held.
 */
module RecoveryRuns {
  import opened Recovery

  /** What the recovery thread is doing: the services below next are finished,
      and read is the number of checks it read for service next. */
  datatype Phase = Idle | Running(op: Op, next: nat, read: nat)

  datatype Leader = Leader(me: nat, services: seq<Service>, phase: Phase)

  datatype Event =
    | EvUp(x: nat)
    | EvDown(x: nat)
    | EvCheckDown(k: nat)
    | EvCheckUp(k: nat)
    | EvResourceDown(k: nat)
    | EvResourceUp(k: nat)
    | EvCompute
    | EvSyncBefore(k: nat)
    | EvRead
    | EvFinish
    | EvInterrupt

  ghost predicate IsInit(l: Leader) {
    && |l.services| > 0
    && l.phase == Idle
    && (forall k | 0 <= k < |l.services| :: l.services[k] == NodeUp(FRESH, l.me))
  }

  /** The counter that a check recovery handles. */
  function Count(s: Service, op: Op): nat {
    match op
    case CheckDown => s.checkDown
    case CheckUp => s.checkUp
    case _ => 0
  }

  function MapUp(l: seq<Service>, x: nat): seq<Service> {
    seq(|l|, k requires 0 <= k < |l| => NodeUp(l[k], x))
  }

  function MapDown(l: seq<Service>, me: nat, x: nat): seq<Service> {
    seq(|l|, k requires 0 <= k < |l| => NodeDown(l[k], me, x))
  }

  /** inst_compute_recovery */
  function Compute(l: seq<Service>): seq<Service> {
    var op := Which(l);
    seq(|l|, k requires 0 <= k < |l| => Involve(l[k], op))
  }

  /** The phase after inst_compute_recovery has chosen op. */
  function AfterCompute(op: Op): Phase {
    if op == Nothing then Idle else Running(op, 0, 0)
  }

  function AfterFinish(p: Phase, n: nat): Phase
    requires p.Running?
  {
    if p.next + 1 < n then Running(p.op, p.next + 1, 0) else Idle
  }

  ghost predicate Next(l: Leader, e: Event, r: Leader) {
    && r.me == l.me
    && match e
      case EvUp(x) => r.services == MapUp(l.services, x) && r.phase == l.phase
      case EvDown(x) => x != l.me && r.services == MapDown(l.services, l.me, x) && r.phase == l.phase
      case EvCheckDown(k) => k < |l.services| && r == l.(services := l.services[k := CheckDownEvent(l.services[k])])
      case EvCheckUp(k) => k < |l.services| && r == l.(services := l.services[k := CheckUpEvent(l.services[k])])
      case EvResourceDown(k) => k < |l.services| && r == l.(services := l.services[k := ResourceDown(l.services[k], l.me)])
      case EvResourceUp(k) => k < |l.services| && r == l.(services := l.services[k := ResourceUp(l.services[k], l.me)])
      case EvCompute =>
        l.phase == Idle && r.services == Compute(l.services) && r.phase == AfterCompute(Which(l.services))
      case EvSyncBefore(k) =>
        && l.phase.Running? && k < |l.services| && CanSync(l.services[k], l.me, l.services[k])
        && r == l.(services := l.services[k := SyncBefore(l.services[k], l.me, l.services[k])])
      case EvRead =>
        && l.phase.Running? && l.phase.next < |l.services|
        && r == l.(phase := l.phase.(read := Count(l.services[l.phase.next], l.phase.op)))
      case EvFinish =>
        && l.phase.Running? && l.phase.next < |l.services|
        && var s := l.services[l.phase.next];
           (s.op == CheckDown ==> l.phase.read <= s.checkDown)
           && r.services == l.services[l.phase.next := Finish(s, l.phase.read)]
           && r.phase == AfterFinish(l.phase, |l.services|)
      case EvInterrupt => l.phase.Running? && r == l.(phase := Idle)
  }

  ghost predicate IsRun(run: seq<Leader>, events: seq<Event>) {
    && |run| == |events| + 1
    && IsInit(run[0])
    && (forall i | 0 <= i < |events| :: Next(run[i], events[i], run[i + 1]))
  }

  // ---------------------------------------------------------------- invariant

  /** The operations in progress belong to the recovery that runs, and the
      finished services have none. */
  predicate PhaseOk(l: Leader) {
    l.phase.Running? ==>
      && l.phase.op != Nothing
      && l.phase.next < |l.services|
      && (forall k | 0 <= k < |l.services| :: l.services[k].op == Nothing || l.services[k].op == l.phase.op)
      && (forall k | 0 <= k < l.phase.next :: l.services[k].op == Nothing)
      && l.phase.read <= Count(l.services[l.phase.next], l.phase.op)
  }

  ghost predicate StackOk(me: nat, nodes: set<nat>, l: seq<Service>) {
    && |l| > 0
    && (forall k | 0 <= k < |l| :: OneOk(me, nodes, l[k]))
    && (forall k | 0 < k < |l| :: PairOk(l[k - 1], l[k]))
  }

  ghost predicate LeaderInv(l: Leader) {
    |l.services| > 0 && StackOk(l.me, l.services[0].up, l.services) && PhaseOk(l)
  }

  lemma UpKeepsInv(l: Leader, x: nat)
    requires LeaderInv(l)
    ensures LeaderInv(l.(services := MapUp(l.services, x)))
  {
    var r := MapUp(l.services, x);
    var nodes := l.services[0].up;
    forall k | 0 <= k < |r| ensures OneOk(l.me, nodes + {x}, r[k]) { NodeUpKeepsOne(l.me, nodes, l.services[k], x); }
    forall k | 0 < k < |r| ensures PairOk(r[k - 1], r[k]) {
      NodeUpKeepsPair(l.me, nodes, l.services[k - 1], l.services[k], x);
    }
    assert r[0].up == nodes + {x};
  }

  lemma DownKeepsInv(l: Leader, x: nat)
    requires LeaderInv(l) && x != l.me
    ensures LeaderInv(l.(services := MapDown(l.services, l.me, x)))
  {
    var r := MapDown(l.services, l.me, x);
    var nodes := l.services[0].up;
    forall k | 0 <= k < |r| ensures OneOk(l.me, nodes - {x}, r[k]) { NodeDownKeepsOne(l.me, nodes, l.services[k], x); }
    forall k | 0 < k < |r| ensures PairOk(r[k - 1], r[k]) {
      NodeDownKeepsPair(l.me, nodes, l.services[k - 1], l.services[k], x);
    }
    assert r[0].up == nodes - {x};
  }

  lemma ComputeKeepsStack(me: nat, nodes: set<nat>, l: seq<Service>)
    requires StackOk(me, nodes, l)
    ensures StackOk(me, nodes, Compute(l))
  {
    var op := Which(l);
    var r := Compute(l);
    forall k | 0 <= k < |r| ensures OneOk(me, nodes, r[k]) { InvolveKeepsOne(me, nodes, l[k], op); }
    forall k | 0 < k < |r| ensures PairOk(r[k - 1], r[k]) {
      InvolveKeepsPair(me, nodes, l[k - 1], l[k], op);
    }
  }

  predicate SameSets(s: Service, t: Service) {
    t == s.(checkDown := t.checkDown, checkUp := t.checkUp, resDown := t.resDown, resUp := t.resUp)
  }

  lemma SameSetsKeepPair(a: Service, b: Service, a': Service, b': Service)
    requires PairOk(a, b) && SameSets(a, a') && SameSets(b, b')
    ensures PairOk(a', b')
  {
    forall x ensures NodePairOk(a', b', x) { assert NodePairOk(a, b, x); }
  }

  /** An update of one service that leaves the sets and the operation alone. */
  lemma CounterKeepsInv(l: Leader, k: nat, s: Service)
    requires LeaderInv(l) && k < |l.services|
    requires SameSets(l.services[k], s)
    requires s.checkDown >= l.services[k].checkDown && s.checkUp >= l.services[k].checkUp
    requires s.resDown || s.resUp ==> l.me in s.committed
    ensures LeaderInv(l.(services := l.services[k := s]))
  {
    var r := l.services[k := s];
    forall x ensures NodeOk(l.services[0].up, s, x) { assert NodeOk(l.services[0].up, l.services[k], x); }
    assert OneOk(l.me, l.services[0].up, s);
    forall j | 0 < j < |r| ensures PairOk(r[j - 1], r[j]) {
      SameSetsKeepPair(l.services[j - 1], l.services[j], r[j - 1], r[j]);
    }
  }

  lemma FinishKeepsStack(me: nat, nodes: set<nat>, l: seq<Service>, n: nat, read: nat)
    requires StackOk(me, nodes, l) && n < |l|
    requires l[n].op == CheckDown ==> read <= l[n].checkDown
    requires n > 0 ==> l[n - 1].op == Nothing
    ensures StackOk(me, nodes, l[n := Finish(l[n], read)])
  {
    var r := l[n := Finish(l[n], read)];
    FinishKeepsOne(me, nodes, l[n], read);
    forall k | 0 < k < |r| ensures PairOk(r[k - 1], r[k]) {
      if k == n { FinishKeepsLower(me, nodes, l[n - 1], l[n], read); }
      else if k == n + 1 { FinishKeepsUpper(me, nodes, l[n], l[n + 1], read); }
    }
  }

  lemma ComputeKeepsInv(l: Leader, r: Leader)
    requires LeaderInv(l) && Next(l, EvCompute, r)
    ensures LeaderInv(r)
  {
    ComputeKeepsStack(l.me, l.services[0].up, l.services);
  }

  lemma FinishKeepsInv(l: Leader, r: Leader)
    requires LeaderInv(l) && Next(l, EvFinish, r)
    ensures LeaderInv(r)
  {
    FinishKeepsStack(l.me, l.services[0].up, l.services, l.phase.next, l.phase.read);
  }

  lemma SyncBeforeKeepsInv(l: Leader, k: nat, r: Leader)
    requires LeaderInv(l) && Next(l, EvSyncBefore(k), r)
    ensures LeaderInv(r)
  {
    SyncBeforeIsIdentity(l.me, l.services[0].up, l.services[k]);
    assert r.services == l.services;
  }

  lemma StepKeepsInv(l: Leader, e: Event, r: Leader)
    requires LeaderInv(l) && Next(l, e, r)
    ensures LeaderInv(r)
  {
    match e {
      case EvUp(x) => UpKeepsInv(l, x);
      case EvDown(x) => DownKeepsInv(l, x);
      case EvCheckDown(k) => CounterKeepsInv(l, k, CheckDownEvent(l.services[k]));
      case EvCheckUp(k) => CounterKeepsInv(l, k, CheckUpEvent(l.services[k]));
      case EvResourceDown(k) => CounterKeepsInv(l, k, ResourceDown(l.services[k], l.me));
      case EvResourceUp(k) => CounterKeepsInv(l, k, ResourceUp(l.services[k], l.me));
      case EvCompute => ComputeKeepsInv(l, r);
      case EvSyncBefore(k) => SyncBeforeKeepsInv(l, k, r);
      case EvRead =>
      case EvFinish => FinishKeepsInv(l, r);
      case EvInterrupt =>
    }
  }

  /** The assertion of inst_local_sync_after_recovery on the number of checks
      handled holds whenever a service is finished. */
  lemma FinishIsEnabled(l: Leader)
    requires LeaderInv(l) && l.phase.Running?
    ensures exists r :: Next(l, EvFinish, r)
  {
    var s := l.services[l.phase.next];
    var r := Leader(l.me, l.services[l.phase.next := Finish(s, l.phase.read)], AfterFinish(l.phase, |l.services|));
    assert Next(l, EvFinish, r);
  }

  lemma {:induction false} RunKeepsInv(run: seq<Leader>, events: seq<Event>, i: nat)
    requires IsRun(run, events) && i < |run|
    ensures LeaderInv(run[i])
  {
    if i == 0 {
      var l := run[0];
      assert forall x :: NodeOk({l.me}, NodeUp(FRESH, l.me), x);
      assert forall x :: NodePairOk(NodeUp(FRESH, l.me), NodeUp(FRESH, l.me), x);
    } else {
      RunKeepsInv(run, events, i - 1);
      assert Next(run[i - 1], events[i - 1], run[i]);
      StepKeepsInv(run[i - 1], events[i - 1], run[i]);
    }
  }

  /** Service hierarchy. In every state of every run, a node on which a service
      is up and not pending down has every lower service up and not pending
      down. */
  lemma {:induction false} HierarchyHolds(run: seq<Leader>, events: seq<Event>, i: nat, j: nat, k: nat)
    requires IsRun(run, events) && i < |run| && j <= k < |run[i].services|
    ensures run[i].services[k].Live() <= run[i].services[j].Live()
    decreases k
  {
    if j < k {
      HierarchyHolds(run, events, i, j, k - 1);
      RunKeepsInv(run, events, i);
      forall x | x in run[i].services[k].Live() ensures x in run[i].services[k - 1].Live() {
        assert NodePairOk(run[i].services[k - 1], run[i].services[k], x);
      }
    }
  }

  /** A node that has a service but not the one below it is pending down. */
  lemma MissingBelowIsPending(run: seq<Leader>, events: seq<Event>, i: nat, j: nat, k: nat, x: nat)
    requires IsRun(run, events) && i < |run| && j <= k < |run[i].services|
    requires x in run[i].services[k].committed && x !in run[i].services[j].committed
    ensures x in run[i].services[k].down
  {
    HierarchyHolds(run, events, i, j, k);
    assert x !in run[i].services[j].Live();
  }

  /** So committed_up alone is included downwards exactly when it is so for the
      nodes that are pending down. */
  lemma CommittedIsIncludedIff(run: seq<Leader>, events: seq<Event>, i: nat, j: nat, k: nat)
    requires IsRun(run, events) && i < |run| && j <= k < |run[i].services|
    ensures var a, b := run[i].services[j], run[i].services[k];
            b.committed <= a.committed <==> b.committed * b.down <= a.committed
  {
    var a, b := run[i].services[j], run[i].services[k];
    forall x | x in b.committed && x !in a.committed
      ensures x in b.committed * b.down
    {
      MissingBelowIsPending(run, events, i, j, k, x);
    }
  }

  /** A leader with two services, for the example below. */
  function Twin(a: Service, b: Service, phase: Phase): Leader {
    Leader(0, [a, b], phase)
  }

  lemma TwinEvents(s: Service)
    ensures Next(Twin(s, s, Idle), EvUp(1), Twin(NodeUp(s, 1), NodeUp(s, 1), Idle))
    ensures Next(Twin(s, s, Idle), EvDown(1), Twin(NodeDown(s, 0, 1), NodeDown(s, 0, 1), Idle))
  {
  }

  lemma TwinComputes(s: Service, op: Op)
    requires op == Up || op == Down
    requires Wants(s, op) && !Wants(s, CheckDown) && (op == Up ==> !Wants(s, Down))
    ensures Next(Twin(s, s, Idle), EvCompute, Twin(Involve(s, op), Involve(s, op), Running(op, 0, 0)))
  {
    assert Wants([s, s][0], op);
    assert Which([s, s]) == op;
  }

  lemma TwinFinishes(a: Service, b: Service, op: Op)
    requires a.op != CheckDown && b.op != CheckDown
    ensures Next(Twin(a, b, Running(op, 0, 0)), EvFinish, Twin(Finish(a, 0), b, Running(op, 1, 0)))
    ensures Next(Twin(a, b, Running(op, 1, 0)), EvFinish, Twin(a, Finish(b, 0), Idle))
  {
  }

  /** Two services, in states s0 to s6, make seven steps. */
  lemma TwinRun(s0: Service, s1: Service, s2: Service, s3: Service, s4: Service, s5: Service, s6: Service)
    returns (run: seq<Leader>, events: seq<Event>)
    requires IsInit(Twin(s0, s0, Idle))
    requires Next(Twin(s0, s0, Idle), EvUp(1), Twin(s1, s1, Idle))
    requires Next(Twin(s1, s1, Idle), EvCompute, Twin(s2, s2, Running(Up, 0, 0)))
    requires Next(Twin(s2, s2, Running(Up, 0, 0)), EvFinish, Twin(s3, s2, Running(Up, 1, 0)))
    requires Next(Twin(s3, s2, Running(Up, 1, 0)), EvFinish, Twin(s3, s3, Idle))
    requires Next(Twin(s3, s3, Idle), EvDown(1), Twin(s4, s4, Idle))
    requires Next(Twin(s4, s4, Idle), EvCompute, Twin(s5, s5, Running(Down, 0, 0)))
    requires Next(Twin(s5, s5, Running(Down, 0, 0)), EvFinish, Twin(s6, s5, Running(Down, 1, 0)))
    ensures IsRun(run, events) && run[|events|] == Twin(s6, s5, Running(Down, 1, 0))
  {
    run := [Twin(s0, s0, Idle), Twin(s1, s1, Idle), Twin(s2, s2, Running(Up, 0, 0)), Twin(s3, s2, Running(Up, 1, 0)),
            Twin(s3, s3, Idle), Twin(s4, s4, Idle), Twin(s5, s5, Running(Down, 0, 0)), Twin(s6, s5, Running(Down, 1, 0))];
    events := [EvUp(1), EvCompute, EvFinish, EvFinish, EvDown(1), EvCompute, EvFinish];
  }

  /** Two services come up on nodes 0 and 1. */
  lemma BothComeUp(s1: Service, s2: Service, s3: Service)
    requires s1 == NodeUp(NodeUp(FRESH, 0), 1) && s2 == Involve(s1, Up) && s3 == Finish(s2, 0)
    ensures s3.committed == {0, 1}
    ensures Next(Twin(s1, s1, Idle), EvCompute, Twin(s2, s2, Running(Up, 0, 0)))
    ensures Next(Twin(s2, s2, Running(Up, 0, 0)), EvFinish, Twin(s3, s2, Running(Up, 1, 0)))
    ensures Next(Twin(s3, s2, Running(Up, 1, 0)), EvFinish, Twin(s3, s3, Idle))
  {
    assert 0 in s1.up - s1.committed;
    TwinComputes(s1, Up);
    TwinFinishes(s2, s2, Up);
    TwinFinishes(s3, s2, Up);
  }

  /** Node 1 goes down, and only the lower service has been recovered. */
  lemma OneGoesDown(s3: Service, s4: Service, s5: Service, s6: Service)
    requires s3 == Finish(Involve(NodeUp(NodeUp(FRESH, 0), 1), Up), 0) && s3.committed == {0, 1}
    requires s4 == NodeDown(s3, 0, 1) && s5 == Involve(s4, Down) && s6 == Finish(s5, 0)
    ensures 1 in s5.committed && 1 !in s6.committed
    ensures Next(Twin(s4, s4, Idle), EvCompute, Twin(s5, s5, Running(Down, 0, 0)))
    ensures Next(Twin(s5, s5, Running(Down, 0, 0)), EvFinish, Twin(s6, s5, Running(Down, 1, 0)))
  {
    TwinComputes(s4, Down);
    TwinFinishes(s5, s5, Down);
  }

  /** The comment of inst_check_blockable_event, that a service is never
      committed up on a node where the service below is not, does not hold as
      it stands: a recovery down removes the node from the lower service
      first. */
  lemma CommittedAloneIsNotHierarchical() returns (run: seq<Leader>, events: seq<Event>)
    ensures IsRun(run, events) && |run[|events|].services| == 2
    ensures 1 in run[|events|].services[1].committed && 1 !in run[|events|].services[0].committed
  {
    var s0 := NodeUp(FRESH, 0);
    var s1 := NodeUp(s0, 1);
    var s2 := Involve(s1, Up);
    var s3 := Finish(s2, 0);
    var s4 := NodeDown(s3, 0, 1);
    var s5 := Involve(s4, Down);
    var s6 := Finish(s5, 0);
    TwinEvents(s0);
    BothComeUp(s1, s2, s3);
    TwinEvents(s3);
    OneGoesDown(s3, s4, s5, s6);
    run, events := TwinRun(s0, s1, s2, s3, s4, s5, s6);
  }
}
