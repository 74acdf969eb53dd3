/**
 Recoveries come to an end (admind/src/instance.c, admind/src/evmgr/evmgr.c):
 when nothing more happens in the cluster, a few completed recoveries bring
 every service up on exactly the nodes that are up.
 */
module RecoveryConvergence {
  import opened Recovery
  import opened RecoveryRuns

  /** Nothing is left to do for service s. */
  predicate Settled(s: Service, nodes: set<nat>) {
    && s.committed == nodes
    && s.down == {}
    && s.checkDown == 0 && s.checkUp == 0
    && !s.resDown && !s.resUp
  }

  /** inst_which_recovery answers NOTHING exactly when every service is
      committed up on the nodes that are up and has nothing pending. */
  lemma NothingIsSettled(me: nat, nodes: set<nat>, l: seq<Service>)
    requires StackOk(me, nodes, l)
    ensures Which(l) == Nothing <==> forall k | 0 <= k < |l| :: Settled(l[k], nodes)
  {
    if Which(l) == Nothing {
      forall k | 0 <= k < |l| ensures Settled(l[k], nodes) {
        var s := l[k];
        assert !Wants(s, Up) && !Wants(s, Down) && !Wants(s, CheckDown) && !Wants(s, CheckUp);
        UpMeansCommitted(me, nodes, s);
      }
    }
    if forall k | 0 <= k < |l| :: Settled(l[k], nodes) {
      forall k, op | 0 <= k < |l| ensures !Wants(l[k], op) { SettledWantsNothing(me, nodes, l[k], op); }
    }
  }

  lemma SettledWantsNothing(me: nat, nodes: set<nat>, s: Service, op: Op)
    requires OneOk(me, nodes, s) && Settled(s, nodes)
    ensures !Wants(s, op)
  {
    forall x ensures x !in s.up - s.committed { assert NodeOk(nodes, s, x); }
  }

  lemma UpMeansCommitted(me: nat, nodes: set<nat>, s: Service)
    requires OneOk(me, nodes, s) && !Wants(s, Up)
    ensures s.committed != {} && nodes <= s.committed
    ensures !Wants(s, Down) ==> s.committed == nodes
  {
    forall x | x in nodes ensures x in s.committed {
      assert NodeOk(nodes, s, x);
      assert x in s.up - s.committed || x in s.committed;
    }
    assert me in nodes by { assert NodeOk(nodes, s, me); }
    forall x | x in s.committed && s.down == {} ensures x in nodes { assert NodeOk(nodes, s, x); }
  }

  // --------------------------------------------------- one completed recovery

  /** A service after a recovery op that ran to its end without new events. */
  function Completed(s: Service, op: Op): Service {
    Finish(Involve(s, op), Count(s, op))
  }

  function CompleteAll(l: seq<Service>): seq<Service> {
    var op := Which(l);
    seq(|l|, k requires 0 <= k < |l| => Completed(l[k], op))
  }

  /** The services when the recovery has finished those below n. */
  function CompleteBelow(l: seq<Service>, n: nat): (r: seq<Service>)
    ensures |r| == |l|
  {
    var op := Which(l);
    seq(|l|, k requires 0 <= k < |l| => if k < n then Completed(l[k], op) else Involve(l[k], op))
  }

  ghost predicate Path(l: Leader, events: seq<Event>, r: Leader)
    decreases |events|
  {
    if events == [] then r == l
    else exists m :: Next(l, events[0], m) && Path(m, events[1..], r)
  }

  /** The recovery thread at service n, with no event since the recovery was
      computed. */
  function At(me: nat, l: seq<Service>, n: nat): Leader {
    Leader(me, CompleteBelow(l, n), if n < |l| then Running(Which(l), n, 0) else Idle)
  }

  function Finishes(n: nat): seq<Event> {
    if n == 0 then [] else [EvRead, EvFinish] + Finishes(n - 1)
  }

  lemma {:induction false} FinishPath(me: nat, l: seq<Service>, n: nat)
    requires Which(l) != Nothing && n <= |l|
    ensures Path(At(me, l, n), Finishes(|l| - n), At(me, l, |l|))
    decreases |l| - n
  {
    if n < |l| {
      FinishPath(me, l, n + 1);
      var a, b := At(me, l, n), At(me, l, n + 1);
      var m := a.(phase := a.phase.(read := Count(a.services[n], Which(l))));
      assert Next(a, EvRead, m);
      assert b.services == a.services[n := Finish(a.services[n], m.phase.read)];
      assert Next(m, EvFinish, b);
      var es := Finishes(|l| - n);
      assert es[1..] == [EvFinish] + Finishes(|l| - n - 1);
      assert es[1..][1..] == Finishes(|l| - n - 1);
      assert Path(m, es[1..], At(me, l, |l|));
    }
  }

  /** A recovery that is computed and runs to its end is CompleteAll. */
  lemma {:induction false} RecoveryCompletes(me: nat, l: seq<Service>)
    requires |l| > 0 && Which(l) != Nothing
    ensures Path(Leader(me, l, Idle), [EvCompute] + Finishes(|l|), Leader(me, CompleteAll(l), Idle))
  {
    var a := At(me, l, 0);
    assert a.services == Compute(l);
    assert Next(Leader(me, l, Idle), EvCompute, a);
    FinishPath(me, l, 0);
    assert At(me, l, |l|).services == CompleteAll(l);
    assert ([EvCompute] + Finishes(|l|))[1..] == Finishes(|l|);
  }

  lemma {:induction false} PathKeepsInv(l: Leader, events: seq<Event>, r: Leader)
    requires LeaderInv(l) && Path(l, events, r)
    ensures LeaderInv(r)
    decreases |events|
  {
    if events != [] {
      var m :| Next(l, events[0], m) && Path(m, events[1..], r);
      StepKeepsInv(l, events[0], m);
      PathKeepsInv(m, events[1..], r);
    }
  }

  lemma CompleteKeepsStack(me: nat, nodes: set<nat>, l: seq<Service>)
    requires StackOk(me, nodes, l) && Which(l) != Nothing
    ensures StackOk(me, nodes, CompleteAll(l))
  {
    RecoveryCompletes(me, l);
    assert l[0].up == nodes by { forall x ensures x in l[0].up <==> x in nodes { assert NodeOk(nodes, l[0], x); } }
    PathKeepsInv(Leader(me, l, Idle), [EvCompute] + Finishes(|l|), Leader(me, CompleteAll(l), Idle));
    assert CompleteAll(l)[0].up == nodes;
  }

  // ------------------------------------------------------------------- rank

  predicate AllUp(l: seq<Service>) {
    forall k | 0 <= k < |l| :: l[k].committed != {}
  }

  function Urgency(op: Op): nat {
    match op
    case CheckDown => 4
    case Down => 3
    case Up => 2
    case CheckUp => 1
    case Nothing => 0
  }

  /** An upper bound on the number of recoveries still to run. */
  function Rank(l: seq<Service>): nat {
    Urgency(Which(l)) + if AllUp(l) then 0 else 3
  }

  lemma CompletedKeepsUp(me: nat, nodes: set<nat>, s: Service, op: Op)
    requires OneOk(me, nodes, s)
    ensures s.committed != {} ==> Completed(s, op).committed != {}
    ensures op != Up && s.committed == {} ==> Completed(s, op).committed == {}
    ensures op == Up ==> Completed(s, op).committed != {}
  {
    if op == Up {
      assert s.committed == {} ==> me in s.up - s.committed;
      assert me in Completed(s, op).committed;
    } else if s.committed != {} {
      assert me in Completed(s, op).committed;
    }
  }

  /** A completed recovery satisfies the wish it was chosen for and revives no
      wish of higher urgency in a service that was up before. */
  lemma CompletedIsCalm(me: nat, nodes: set<nat>, s: Service, op: Op, wish: Op)
    requires OneOk(me, nodes, s) && op != Nothing && wish != Nothing
    requires Urgency(wish) >= Urgency(op)
    requires Urgency(wish) > Urgency(op) ==> !Wants(s, wish)
    requires op == Up ==> s.committed != {}
    requires op == CheckUp ==> !Wants(s, Up)
    ensures !Wants(Completed(s, op), wish)
  {
    CompletedKeepsUp(me, nodes, s, op);
  }

  lemma RankDrops(me: nat, nodes: set<nat>, l: seq<Service>)
    requires StackOk(me, nodes, l) && Which(l) != Nothing
    ensures Rank(CompleteAll(l)) < Rank(l)
  {
    var op, r := Which(l), CompleteAll(l);
    forall k | 0 <= k < |l|
      ensures l[k].committed != {} ==> r[k].committed != {}
      ensures op == Up ==> r[k].committed != {}
    { CompletedKeepsUp(me, nodes, l[k], op); }
    if op == Up && !AllUp(l) {
      assert AllUp(r);
    } else {
      forall k, wish | 0 <= k < |l| && wish != Nothing && Urgency(wish) >= Urgency(op) ensures !Wants(r[k], wish) {
        assert Urgency(wish) > Urgency(op) ==> !Wants(l[k], wish);
        CompletedIsCalm(me, nodes, l[k], op, wish);
      }
      assert Urgency(Which(r)) < Urgency(op);
    }
  }

  /** The loop of evmgr_process_events: recoveries are computed and run until
      none is wanted. */
  ghost function Recovered(me: nat, nodes: set<nat>, l: seq<Service>): seq<Service>
    requires StackOk(me, nodes, l)
    decreases Rank(l)
  {
    if Which(l) == Nothing then l
    else
      RankDrops(me, nodes, l);
      CompleteKeepsStack(me, nodes, l);
      Recovered(me, nodes, CompleteAll(l))
  }

  /** The number of recoveries that loop runs. */
  ghost function Recoveries(me: nat, nodes: set<nat>, l: seq<Service>): (n: nat)
    requires StackOk(me, nodes, l)
    ensures n <= Rank(l)
    decreases Rank(l)
  {
    if Which(l) == Nothing then 0
    else
      RankDrops(me, nodes, l);
      CompleteKeepsStack(me, nodes, l);
      1 + Recoveries(me, nodes, CompleteAll(l))
  }

  lemma {:induction false} RecoveredIsSettled(me: nat, nodes: set<nat>, l: seq<Service>)
    requires StackOk(me, nodes, l)
    ensures forall k | 0 <= k < |Recovered(me, nodes, l)| :: Settled(Recovered(me, nodes, l)[k], nodes)
    ensures |Recovered(me, nodes, l)| == |l|
    decreases Rank(l)
  {
    if Which(l) == Nothing {
      NothingIsSettled(me, nodes, l);
    } else {
      RankDrops(me, nodes, l);
      CompleteKeepsStack(me, nodes, l);
      RecoveredIsSettled(me, nodes, CompleteAll(l));
    }
  }

  /** Recovery convergence. From every state of every run, when no more events
      come, at most seven completed recoveries leave every service committed up
      on exactly the nodes that are up, with nothing pending. */
  lemma RunsConverge(run: seq<Leader>, events: seq<Event>, i: nat)
    requires IsRun(run, events) && i < |run|
    ensures |run[i].services| > 0 && StackOk(run[i].me, run[i].services[0].up, run[i].services)
    ensures Recoveries(run[i].me, run[i].services[0].up, run[i].services) <= 7
    ensures var nodes := run[i].services[0].up;
            var r := Recovered(run[i].me, nodes, run[i].services);
            |r| == |run[i].services| && forall k | 0 <= k < |r| :: Settled(r[k], nodes)
  {
    RunKeepsInv(run, events, i);
    RecoveredIsSettled(run[i].me, run[i].services[0].up, run[i].services);
  }

  // ------------------------------------------------------- blocked queries

  /** Whether a service makes inst_check_blockable_event answer yes. */
  predicate Blocks(s: Service) {
    !(s.down - (if s.op == Down then s.involved else {}) !! s.committed) || s.checkDown > 0
  }

  /** inst_check_blockable_event: whether a query to a daemon, once it has waited
      for an answer in vain, gives up. */
  predicate Blockable(l: seq<Service>) {
    exists k :: 0 <= k < |l| && Blocks(l[k])
  }

  /** A check down event is pending for a service that is up nowhere. Such an
      event is not handled before the service is up. */
  predicate StrandedCheck(l: seq<Service>) {
    exists k :: 0 <= k < |l| && l[k].committed == {} && l[k].checkDown > 0
  }

  lemma ServiceBlocksIff(me: nat, nodes: set<nat>, s: Service, op: Op)
    requires OneOk(me, nodes, s) && op != Nothing && op != CheckDown
    requires !Wants(s, CheckDown) && (op != Down ==> !Wants(s, Down))
    ensures Blocks(Involve(s, op)) <==> s.committed == {} && s.checkDown > 0
  {
  }

  /** At the start of a recovery the test does not answer yes because of the
      events that the recovery handles: it does exactly when a check down is to
      be handled, or is stranded on a service that is up nowhere. */
  lemma StartIsBlockableIff(me: nat, nodes: set<nat>, l: seq<Service>)
    requires StackOk(me, nodes, l) && Which(l) != Nothing
    ensures Blockable(Compute(l)) <==> Which(l) == CheckDown || StrandedCheck(l)
  {
    var op := Which(l);
    if op == CheckDown {
      var k :| 0 <= k < |l| && Wants(l[k], CheckDown);
      assert Blocks(Compute(l)[k]);
    } else {
      forall k | 0 <= k < |l|
        ensures Blocks(Compute(l)[k]) <==> l[k].committed == {} && l[k].checkDown > 0
      {
        ServiceBlocksIff(me, nodes, l[k], op);
      }
    }
  }

  /** A run that strands a check: it comes before the service is up anywhere, and
      at the start of the recovery up, which would bring the service up, the
      test answers yes. */
  lemma CheckCanBeStranded() returns (run: seq<Leader>, events: seq<Event>)
    ensures IsRun(run, events)
    ensures var l := run[|events|].services;
            StrandedCheck(l) && Which(l) == Up && Blockable(Compute(l))
  {
    var s := NodeUp(FRESH, 0);
    var t := CheckDownEvent(s);
    run := [Leader(0, [s], Idle), Leader(0, [t], Idle)];
    events := [EvCheckDown(0)];
    assert Next(run[0], events[0], run[1]);
    assert 0 in t.up - t.committed;
    assert Wants([t][0], Up);
    assert Which([t]) == Up;
    assert Blocks(Compute([t])[0]);
  }
}
