/**
 Recoveries that are interrupted (admind/src/instance.c,
 admind/src/daemon_api_client.c, admind/src/evmgr/evmgr.c): a recovery that
 waits for a daemon gives up when inst_check_blockable_event says so, and the
 event manager computes a recovery again. No event comes from outside.
 */
module RecoveryInterrupts {
  import opened Recovery
  import opened RecoveryRuns
  import opened RecoveryConvergence

  /** One turn of the loop of evmgr_process_events. The recovery runs to its end,
      or gives up after n services because a daemon does not answer and the test
      says that it may not. The checks of a check-down recovery wait for no
      daemon. */
  ghost predicate Turn(l: seq<Service>, r: seq<Service>) {
    && Which(l) != Nothing
    && (r == CompleteAll(l)
        || (Which(l) != CheckDown && Blockable(r) && exists n | 0 <= n < |l| :: r == CompleteBelow(l, n)))
  }

  ghost predicate Turns(ls: seq<seq<Service>>) {
    |ls| > 0 && forall i | 0 <= i < |ls| - 1 :: Turn(ls[i], ls[i + 1])
  }

  // ------------------------------------------------------- what a turn keeps

  lemma {:induction false} AtKeepsInv(me: nat, nodes: set<nat>, l: seq<Service>, n: nat)
    requires StackOk(me, nodes, l) && Which(l) != Nothing && n <= |l|
    ensures LeaderInv(At(me, l, n))
  {
    if n == 0 {
      assert l[0].up == nodes by { SameUp(me, nodes, l[0]); }
      assert At(me, l, 0).services == Compute(l);
      StepKeepsInv(Leader(me, l, Idle), EvCompute, At(me, l, 0));
    } else {
      AtKeepsInv(me, nodes, l, n - 1);
      var a, b := At(me, l, n - 1), At(me, l, n);
      var m := a.(phase := a.phase.(read := Count(a.services[n - 1], Which(l))));
      StepKeepsInv(a, EvRead, m);
      assert b.services == a.services[n - 1 := Finish(a.services[n - 1], m.phase.read)];
      StepKeepsInv(m, EvFinish, b);
    }
  }

  lemma SameUp(me: nat, nodes: set<nat>, s: Service)
    requires OneOk(me, nodes, s)
    ensures s.up == nodes
  {
    forall x ensures x in s.up <==> x in nodes { assert NodeOk(nodes, s, x); }
  }

  lemma PrefixKeepsStack(me: nat, nodes: set<nat>, l: seq<Service>, n: nat)
    requires StackOk(me, nodes, l) && Which(l) != Nothing && n <= |l|
    ensures StackOk(me, nodes, CompleteBelow(l, n))
  {
    AtKeepsInv(me, nodes, l, n);
    SameUp(me, nodes, l[0]);
    assert CompleteBelow(l, n)[0].up == l[0].up;
  }

  lemma TurnKeepsStack(me: nat, nodes: set<nat>, l: seq<Service>, r: seq<Service>)
    requires StackOk(me, nodes, l) && Turn(l, r)
    ensures StackOk(me, nodes, r)
  {
    if r == CompleteAll(l) {
      CompleteKeepsStack(me, nodes, l);
    } else {
      var n :| 0 <= n < |l| && r == CompleteBelow(l, n);
      PrefixKeepsStack(me, nodes, l, n);
    }
  }

  /** A service is not taken down for good, and a check that is not wanted stays. */
  lemma ServiceAfter(me: nat, nodes: set<nat>, s: Service, op: Op, t: Service)
    requires OneOk(me, nodes, s) && (t == Completed(s, op) || t == Involve(s, op))
    ensures t.committed == {} ==> s.committed == {} && t.checkDown == s.checkDown
    ensures s.committed == {} && op != Up ==> t.committed == {} && t.checkDown == s.checkDown
  {
    CompletedKeepsUp(me, nodes, s, op);
  }

  /** The services of a turn, one by one. */
  lemma TurnOfService(l: seq<Service>, r: seq<Service>, k: nat)
    requires Turn(l, r) && k < |l|
    ensures |r| == |l| && (r[k] == Completed(l[k], Which(l)) || r[k] == Involve(l[k], Which(l)))
  {
  }

  lemma TurnStrandsNothing(me: nat, nodes: set<nat>, l: seq<Service>, r: seq<Service>)
    requires StackOk(me, nodes, l) && Turn(l, r) && !StrandedCheck(l)
    ensures !StrandedCheck(r)
  {
    forall k | 0 <= k < |r|
      ensures !(r[k].committed == {} && r[k].checkDown > 0)
    {
      TurnOfService(l, r, k);
      ServiceAfter(me, nodes, l[k], Which(l), r[k]);
    }
  }

  // ---------------------------------------------------------------- the bound

  /** The number of services that are up nowhere. */
  function Absent(l: seq<Service>): nat {
    if l == [] then 0 else Absent(l[..|l| - 1]) + if l[|l| - 1].committed == {} then 1 else 0
  }

  lemma {:induction false} AbsentDrops(l: seq<Service>, r: seq<Service>)
    requires |l| == |r| && forall k | 0 <= k < |l| :: r[k].committed == {} ==> l[k].committed == {}
    ensures Absent(r) <= Absent(l)
    ensures (exists k | 0 <= k < |l| :: l[k].committed == {} && r[k].committed != {}) ==> Absent(r) < Absent(l)
  {
    if l != [] {
      AbsentDrops(l[..|l| - 1], r[..|l| - 1]);
      if k :| 0 <= k < |l| && l[k].committed == {} && r[k].committed != {} {
        assert k < |l| - 1 ==> l[..|l| - 1][k].committed == {} && r[..|l| - 1][k].committed != {};
      }
    }
  }

  lemma {:induction false} NoneAbsent(l: seq<Service>)
    ensures Absent(l) == 0 <==> AllUp(l)
  {
    if l != [] {
      NoneAbsent(l[..|l| - 1]);
      assert AllUp(l) <==> AllUp(l[..|l| - 1]) && l[|l| - 1].committed != {} by {
        assert l == l[..|l| - 1] + [l[|l| - 1]];
      }
    }
  }

  /** An upper bound on the turns still to come. */
  function Bound(l: seq<Service>): nat {
    5 * Absent(l) + Urgency(Which(l))
  }

  lemma OnlyNewcomersBlock(me: nat, nodes: set<nat>, s: Service, op: Op, t: Service)
    requires OneOk(me, nodes, s) && op != Nothing && op != CheckDown && s.checkDown == 0
    requires op != Down ==> !Wants(s, Down)
    requires (t == Completed(s, op) || t == Involve(s, op)) && Blocks(t)
    ensures s.committed == {} && t.committed != {}
  {
  }

  /** Without a stranded check only a service that the recovery has just brought
      up can interrupt it. */
  lemma InterruptedHasNewcomer(me: nat, nodes: set<nat>, l: seq<Service>, r: seq<Service>)
    requires StackOk(me, nodes, l) && Turn(l, r) && r != CompleteAll(l) && !StrandedCheck(l)
    ensures |r| == |l| && exists k | 0 <= k < |l| :: l[k].committed == {} && r[k].committed != {}
  {
    var op := Which(l);
    var k :| 0 <= k < |r| && Blocks(r[k]);
    TurnOfService(l, r, k);
    assert !Wants(l[k], CheckDown) && (op != Down ==> !Wants(l[k], Down));
    OnlyNewcomersBlock(me, nodes, l[k], op, r[k]);
  }

  lemma TurnDrops(me: nat, nodes: set<nat>, l: seq<Service>, r: seq<Service>)
    requires StackOk(me, nodes, l) && Turn(l, r) && !StrandedCheck(l)
    ensures Bound(r) < Bound(l)
  {
    forall k | 0 <= k < |l|
      ensures |r| == |l| && (r[k].committed == {} ==> l[k].committed == {})
    {
      TurnOfService(l, r, k);
      ServiceAfter(me, nodes, l[k], Which(l), r[k]);
    }
    AbsentDrops(l, r);
    if r == CompleteAll(l) {
      RankDrops(me, nodes, l);
      NoneAbsent(l);
      NoneAbsent(r);
    } else {
      InterruptedHasNewcomer(me, nodes, l, r);
    }
  }

  lemma {:induction false} TurnsAreBounded(me: nat, nodes: set<nat>, ls: seq<seq<Service>>)
    requires Turns(ls) && StackOk(me, nodes, ls[0]) && !StrandedCheck(ls[0])
    ensures |ls| <= Bound(ls[0]) + 1
  {
    if |ls| > 1 {
      assert Turn(ls[0], ls[1]);
      TurnKeepsStack(me, nodes, ls[0], ls[1]);
      TurnStrandsNothing(me, nodes, ls[0], ls[1]);
      TurnDrops(me, nodes, ls[0], ls[1]);
      var rest := ls[1..];
      forall i | 0 <= i < |rest| - 1 ensures Turn(rest[i], rest[i + 1]) { assert Turn(ls[i + 1], ls[i + 2]); }
      TurnsAreBounded(me, nodes, rest);
    }
  }

  // ------------------------------------------------------------ without a bound

  lemma StrandedStays(me: nat, nodes: set<nat>, l: seq<Service>) returns (r: seq<Service>)
    requires StackOk(me, nodes, l) && StrandedCheck(l)
    ensures Turn(l, r) && StackOk(me, nodes, r) && StrandedCheck(r)
  {
    NothingIsSettled(me, nodes, l);
    var k :| 0 <= k < |l| && l[k].committed == {} && l[k].checkDown > 0;
    assert !Settled(l[k], nodes);
    r := if Which(l) == CheckDown then CompleteAll(l) else CompleteBelow(l, 0);
    assert r[k].committed == {} && r[k].checkDown > 0;
    assert Turn(l, r);
    TurnKeepsStack(me, nodes, l, r);
  }

  lemma {:induction false} TurnsGoOn(me: nat, nodes: set<nat>, l: seq<Service>, n: nat) returns (ls: seq<seq<Service>>)
    requires StackOk(me, nodes, l) && StrandedCheck(l)
    ensures Turns(ls) && ls[0] == l && |ls| == n + 1
    decreases n
  {
    if n == 0 {
      ls := [l];
    } else {
      var r := StrandedStays(me, nodes, l);
      var rest := TurnsGoOn(me, nodes, r, n - 1);
      ls := [l] + rest;
      forall i | 0 <= i < |ls| - 1 ensures Turn(ls[i], ls[i + 1]) {
        assert i > 0 ==> Turn(rest[i - 1], rest[i]);
      }
    }
  }

  ghost predicate EndsWithin(l: seq<Service>, bound: nat) {
    forall ls | Turns(ls) && ls[0] == l :: |ls| <= bound + 1
  }

  /** When nothing more happens in the cluster, the loop ends within a bounded
      number of turns, however recoveries are interrupted, if and only if no
      check is stranded. */
  lemma LoopEndsIff(me: nat, nodes: set<nat>, l: seq<Service>)
    requires StackOk(me, nodes, l)
    ensures (exists bound: nat :: EndsWithin(l, bound)) <==> !StrandedCheck(l)
  {
    if StrandedCheck(l) {
      forall bound: nat ensures !EndsWithin(l, bound) {
        var ls := TurnsGoOn(me, nodes, l, bound + 1);
      }
    } else {
      forall ls | Turns(ls) && ls[0] == l ensures |ls| <= Bound(l) + 1 {
        TurnsAreBounded(me, nodes, ls);
      }
      assert EndsWithin(l, Bound(l));
    }
  }

  /** The same of every state of every run. */
  lemma RunEndsIff(run: seq<Leader>, events: seq<Event>, i: nat)
    requires IsRun(run, events) && i < |run|
    ensures (exists bound: nat :: EndsWithin(run[i].services, bound)) <==> !StrandedCheck(run[i].services)
  {
    RunKeepsInv(run, events, i);
    LoopEndsIff(run[i].me, run[i].services[0].up, run[i].services);
  }
}
