/**
 The recovery engine as the program runs it (admind/src/instance.c): an array
 of service states that events and recoveries update in place. Every method is
 proved against the functions of modules Recovery and RecoveryRuns.
 */
module RecoveryEngine {
  import opened Recovery
  import opened RecoveryRuns
  import opened RecoveryConvergence

  datatype Step = Suspend | Recover | Resume

  /** ADMIND_ERR_NODE_DOWN, negated as error codes are. */
  const NODE_DOWN := -0x104

  /** The services below n finished, the others as they are. */
  function FinishedBelow(l: seq<Service>, n: nat): (r: seq<Service>)
    requires forall k | 0 <= k < |l| :: l[k].op != CheckDown
    ensures |r| == |l|
  {
    seq(|l|, k requires 0 <= k < |l| => if k < n && l[k].op != Nothing then Finish(l[k], 0) else l[k])
  }

  /** What a step of service k, in state s, answers: a service that takes no part
      answers itself, with an error if its resources have changed. */
  function Answer(s: Service, k: nat, step: Step, outcome: (nat, Step) -> int): int {
    if s.op != Nothing then outcome(k, step) else if s.resDown then NODE_DOWN else 0
  }

  predicate StepSucceeds(s: Service, k: nat, step: Step, outcome: (nat, Step) -> int) {
    Answer(s, k, step, outcome) == 0
  }

  datatype Turn = Turn(k: nat, step: Step)

  /** The steps until service k is recovered: a service is suspended before the
      one below it resumes. */
  function PlanTo(k: nat): (turns: seq<Turn>)
    ensures |turns| == 3 * k + 2
  {
    if k == 0 then [Turn(0, Suspend), Turn(0, Recover)]
    else PlanTo(k - 1) + [Turn(k, Suspend), Turn(k - 1, Resume), Turn(k, Recover)]
  }

  /** All steps of a recovery of n services. */
  function Plan(n: nat): seq<Turn>
    requires n > 0
  {
    PlanTo(n - 1) + [Turn(n - 1, Resume)]
  }

  lemma {:induction false} PlanBegins(n: nat, k: nat)
    requires k < n
    ensures |PlanTo(k)| < |Plan(n)| && PlanTo(k) == Plan(n)[..|PlanTo(k)|]
    ensures k + 1 < n ==> PlanTo(k + 1) == Plan(n)[..|PlanTo(k + 1)|]
    decreases n - k
  {
    if k + 1 < n {
      PlanBegins(n, k + 1);
      assert PlanTo(k) == PlanTo(k + 1)[..|PlanTo(k)|];
    }
  }

  lemma {:induction false} PlanResumes(k: nat, j: nat)
    ensures Turn(j, Resume) in PlanTo(k) <==> j < k
  {
    if k > 0 { PlanResumes(k - 1, j); }
  }

  /** The first m steps succeed, and the next one, if any, answers err. */
  predicate StopsAt(l: seq<Service>, outcome: (nat, Step) -> int, m: nat, err: int)
    requires |l| > 0
  {
    var plan := Plan(|l|);
    && m <= |plan|
    && (forall i | 0 <= i < |plan| :: plan[i].k < |l|)
    && (forall i | 0 <= i < m :: StepSucceeds(l[plan[i].k], plan[i].k, plan[i].step, outcome))
    && (err == 0 <==> m == |plan|)
    && (m < |plan| ==> err == Answer(l[plan[m].k], plan[m].k, plan[m].step, outcome))
  }

  predicate Succeeds(l: seq<Service>, t: Turn, outcome: (nat, Step) -> int) {
    t.k < |l| && StepSucceeds(l[t.k], t.k, t.step, outcome)
  }

  predicate AllSucceed(l: seq<Service>, turns: seq<Turn>, outcome: (nat, Step) -> int) {
    forall i | 0 <= i < |turns| :: Succeeds(l, turns[i], outcome)
  }

  lemma {:induction false} PlanInRange(k: nat, i: nat)
    requires i < |PlanTo(k)|
    ensures PlanTo(k)[i].k <= k
  {
    if k > 0 && i < |PlanTo(k - 1)| { PlanInRange(k - 1, i); }
  }

  /** The steps done are the first ones of the plan, and the next one fails. */
  lemma Stops(l: seq<Service>, outcome: (nat, Step) -> int, done: seq<Turn>, next: Turn, err: int)
    requires |l| > 0 && done + [next] <= Plan(|l|) && AllSucceed(l, done, outcome)
    requires next.k < |l| && err == Answer(l[next.k], next.k, next.step, outcome) != 0
    ensures StopsAt(l, outcome, |done|, err)
  {
    var plan := Plan(|l|);
    assert plan[|done|] == (done + [next])[|done|] == next;
    forall i | 0 <= i < |plan| ensures plan[i].k < |l| {
      if i < |PlanTo(|l| - 1)| { PlanInRange(|l| - 1, i); }
    }
    forall i | 0 <= i < |done| ensures StepSucceeds(l[plan[i].k], plan[i].k, plan[i].step, outcome) {
      assert plan[i] == (done + [next])[i] == done[i] && Succeeds(l, done[i], outcome);
    }
  }

  /** All steps of the plan are done. */
  lemma Completes(l: seq<Service>, outcome: (nat, Step) -> int)
    requires |l| > 0 && AllSucceed(l, Plan(|l|), outcome)
    ensures StopsAt(l, outcome, |Plan(|l|)|, 0)
  {
    var plan := Plan(|l|);
    forall i | 0 <= i < |plan| ensures plan[i].k < |l| && StepSucceeds(l[plan[i].k], plan[i].k, plan[i].step, outcome) {
      assert Succeeds(l, plan[i], outcome);
    }
  }

  /** The steps for service k, when those up to service k - 1 are done. */
  lemma PlanGoesOn(n: nat, k: nat)
    requires 0 < k <= n
    ensures k < n ==>
              && PlanTo(k - 1) + [Turn(k, Suspend)] <= Plan(n)
              && PlanTo(k - 1) + [Turn(k, Suspend)] + [Turn(k - 1, Resume)] <= Plan(n)
              && PlanTo(k - 1) + [Turn(k, Suspend)] + [Turn(k - 1, Resume)] + [Turn(k, Recover)] == PlanTo(k) <= Plan(n)
    ensures k == n ==> PlanTo(k - 1) + [Turn(k - 1, Resume)] == Plan(n)
  {
    if k < n { PlanBegins(n, k); }
  }

  /** When a recovery up or down is chosen, no service that takes no part in it
      has changed resources, so no step gives up by itself. */
  lemma NoStaleResource(me: nat, nodes: set<nat>, l: seq<Service>, k: nat)
    requires StackOk(me, nodes, l) && k < |l| && (Which(l) == Up || Which(l) == Down)
    ensures Involve(l[k], Which(l)).op == Nothing ==> !l[k].resDown
  {
    assert OneOk(me, nodes, l[k]);
    assert !Wants(l[k], Down) || Which(l) == Down;
  }

  /** The steps stop after m, and the services below n have resumed. */
  predicate StopsWith(l: seq<Service>, outcome: (nat, Step) -> int, m: nat, err: int, n: nat)
    requires |l| > 0
  {
    StopsAt(l, outcome, m, err) && forall k: nat | k < |l| :: k < n <==> Turn(k, Resume) in Plan(|l|)[..m]
  }

  /** The services that have resumed when the next step fails. */
  lemma Failed(l: seq<Service>, outcome: (nat, Step) -> int, n: nat, done: seq<Turn>, next: Turn, err: int)
    returns (m: nat)
    requires |l| > 0 && n < |l| && done + [next] <= Plan(|l|) && AllSucceed(l, done, outcome)
    requires next.k < |l| && err == Answer(l[next.k], next.k, next.step, outcome) != 0
    requires PlanTo(n) <= done || n == 0 || done == PlanTo(n - 1) + [Turn(n, Suspend)] + [Turn(n - 1, Resume)]
    requires done <= PlanTo(n) || done == PlanTo(n) + [Turn(n + 1, Suspend)]
    ensures StopsWith(l, outcome, m, err, n)
  {
    m := |done|;
    Stops(l, outcome, done, next, err);
    assert Plan(|l|)[..m] == done;
    forall k: nat | k < |l| ensures k < n <==> Turn(k, Resume) in done {
      PlanResumes(n, k);
      if n > 0 { PlanResumes(n - 1, k); }
    }
  }

  lemma PlanResumesAll(n: nat)
    requires n > 0
    ensures forall k: nat | k < n :: Turn(k, Resume) in Plan(n)[..|Plan(n)|]
  {
    forall k: nat | k < n ensures Turn(k, Resume) in Plan(n)[..|Plan(n)|] {
      PlanResumes(n - 1, k);
      assert Plan(n)[..|Plan(n)|] == Plan(n);
    }
  }

  /** What the last of the first n services with something to check answers. */
  function LastAnswer(l: seq<Service>, op: Op, outcome: nat -> int, n: nat): int
    requires n <= |l|
  {
    if n == 0 then 0 else if Count(l[n - 1], op) > 0 then outcome(n - 1) else LastAnswer(l, op, outcome, n - 1)
  }

  class Engine {
    const me: nat
    const states: array<Service>

    constructor (me: nat, services: nat)
      ensures states.Length == services && fresh(states)
      ensures this.me == me && forall k | 0 <= k < services :: states[k] == FRESH
    {
      this.me := me;
      states := new Service[services](_ => FRESH);
    }

    /** Node x is up (inst_evt_up). */
    method OnNodeUp(x: nat)
      modifies states
      ensures states[..] == MapUp(old(states[..]), x)
    {
      for k := 0 to states.Length
        invariant forall j | 0 <= j < k :: states[j] == NodeUp(old(states[j]), x)
        invariant forall j | k <= j < states.Length :: states[j] == old(states[j])
      {
        states[k] := states[k].(up := states[k].up + {x});
        if x !in states[k].committed && !(x in states[k].involved && states[k].op == Up) {
          states[k] := states[k].(down := states[k].down - {x});
        }
      }
    }

    /** Node x is down (inst_evt_down). */
    method OnNodeDown(x: nat)
      modifies states
      ensures states[..] == MapDown(old(states[..]), me, x)
    {
      for k := 0 to states.Length
        invariant forall j | 0 <= j < k :: states[j] == NodeDown(old(states[j]), me, x)
        invariant forall j | k <= j < states.Length :: states[j] == old(states[j])
      {
        states[k] := states[k].(up := states[k].up - {x});
        if x !in states[k].committed && !(x in states[k].involved && states[k].op == Up) {
          continue;
        }
        if me !in states[k].committed && !(me in states[k].involved && states[k].op == Up) {
          continue;
        }
        states[k] := states[k].(down := states[k].down + {x});
      }
    }

    method OpWanted(op: Op) returns (yes: bool)
      ensures yes == Wanted(states[..], op)
    {
      for k := 0 to states.Length
        invariant forall j | 0 <= j < k :: !Wants(states[j], op)
      {
        if Wants(states[k], op) {
          assert Wants(states[..][k], op);
          return true;
        }
      }
      return false;
    }

    method WhichRecovery() returns (op: Op)
      ensures op == Which(states[..])
    {
      var wanted := OpWanted(CheckDown);
      if wanted { return CheckDown; }
      wanted := OpWanted(Down);
      if wanted { return Down; }
      wanted := OpWanted(Up);
      if wanted { return Up; }
      wanted := OpWanted(CheckUp);
      if wanted { return CheckUp; }
      return Nothing;
    }

    /** inst_compute_recovery */
    method ComputeRecovery() returns (op: Op)
      modifies states
      ensures op == Which(old(states[..])) && states[..] == Compute(old(states[..]))
    {
      op := WhichRecovery();
      for k := 0 to states.Length
        invariant forall j | 0 <= j < k :: states[j] == Involve(old(states[j]), op)
        invariant forall j | k <= j < states.Length :: states[j] == old(states[j])
      {
        states[k] := Involve(states[k], op);
      }
    }

    /** inst_sync_after_recovery and its local part */
    method SyncAfter(k: nat, handled: nat)
      requires k < states.Length && (states[k].op == CheckDown ==> handled <= states[k].checkDown)
      modifies states
      ensures states[..] == old(states[..])[k := Finish(old(states[k]), handled)]
    {
      var committed := states[k].committed;
      if states[k].op == Up { committed := committed + states[k].involved; }
      if states[k].op == Down { committed := committed - states[k].involved; }
      states[k] := LocalSyncAfter(states[k], committed, handled);
    }

    /** do_step_or_return */
    method DoStep(k: nat, step: Step, outcome: (nat, Step) -> int) returns (err: int)
      requires k < states.Length
      ensures err == Answer(states[k], k, step, outcome)
    {
      if states[k].op == Nothing && states[k].resDown {
        return NODE_DOWN;
      }
      if states[k].op != Nothing {
        return outcome(k, step);
      }
      return 0;
    }

    /** Service k resumes, and takes over the result of its recovery. */
    method ResumeOne(k: nat, outcome: (nat, Step) -> int, ghost was: seq<Service>) returns (err: int)
      requires k < states.Length == |was| && (forall j | 0 <= j < |was| :: was[j].op != CheckDown)
      requires states[..] == FinishedBelow(was, k)
      modifies states
      ensures err == Answer(was[k], k, Resume, outcome)
      ensures states[..] == FinishedBelow(was, if err == 0 then k + 1 else k)
    {
      assert states[k] == FinishedBelow(was, k)[k];
      err := DoStep(k, Resume, outcome);
      if err == 0 && states[k].op != Nothing {
        SyncAfter(k, 0);
      }
    }

    /** The steps of the first service before its resume. */
    method RecoverFirst(outcome: (nat, Step) -> int, ghost was: seq<Service>) returns (err: int, ghost m: nat)
      requires states.Length > 0 && states[..] == was
      ensures err == 0 ==> AllSucceed(was, PlanTo(0), outcome)
      ensures err != 0 ==> StopsWith(was, outcome, m, err, 0)
    {
      PlanBegins(states.Length, 0);
      m := 0;
      err := DoStep(0, Suspend, outcome);
      if err != 0 { m := Failed(was, outcome, 0, [], Turn(0, Suspend), err); return; }
      err := DoStep(0, Recover, outcome);
      if err != 0 { m := Failed(was, outcome, 0, [Turn(0, Suspend)], Turn(0, Recover), err); return; }
    }

    /** A turn of the loop: service k is suspended and recovered, and the one
        below it resumes in between. */
    method RecoverNext(k: nat, outcome: (nat, Step) -> int, ghost was: seq<Service>)
      returns (err: int, n: nat, ghost m: nat)
      requires 0 < k < states.Length == |was| && (forall j | 0 <= j < |was| :: was[j].op != CheckDown)
      requires states[..] == FinishedBelow(was, k - 1) && AllSucceed(was, PlanTo(k - 1), outcome)
      modifies states
      ensures n < states.Length && states[..] == FinishedBelow(was, n)
      ensures err == 0 ==> n == k && AllSucceed(was, PlanTo(k), outcome)
      ensures err != 0 ==> StopsWith(was, outcome, m, err, n)
    {
      PlanGoesOn(states.Length, k);
      ghost var done := PlanTo(k - 1);
      n, m := k - 1, 0;
      assert states[k] == FinishedBelow(was, k - 1)[k];
      err := DoStep(k, Suspend, outcome);
      if err != 0 { m := Failed(was, outcome, n, done, Turn(k, Suspend), err); return; }
      done := done + [Turn(k, Suspend)];
      err := ResumeOne(k - 1, outcome, was);
      if err != 0 { m := Failed(was, outcome, n, done, Turn(n, Resume), err); return; }
      done := done + [Turn(k - 1, Resume)];
      n := k;
      assert states[k] == FinishedBelow(was, k)[k];
      err := DoStep(k, Recover, outcome);
      if err != 0 { m := Failed(was, outcome, n, done, Turn(k, Recover), err); return; }
    }

    /** __recovery_up_down_resource. The steps are done in the order of the plan
        up to the first that fails, after m steps, and its answer is the result.
        Exactly the services that have resumed, those below n, are then finished;
        it is all of them if and only if every step succeeds. */
    method RecoverUpDown(outcome: (nat, Step) -> int) returns (err: int, n: nat, ghost m: nat)
      requires states.Length > 0
      requires forall k | 0 <= k < states.Length ::
                 states[k].op == Nothing || states[k].op == Up || states[k].op == Down
      modifies states
      ensures n <= states.Length && states[..] == FinishedBelow(old(states[..]), n)
      ensures StopsAt(old(states[..]), outcome, m, err)
      ensures forall k: nat | k < states.Length :: k < n <==> Turn(k, Resume) in Plan(states.Length)[..m]
      ensures err == 0 <==> n == states.Length
    {
      ghost var was := states[..];
      n := 0;
      assert states[..] == FinishedBelow(was, 0);
      err, m := RecoverFirst(outcome, was);
      if err != 0 { return; }
      for k := 1 to states.Length
        invariant n == k - 1 && err == 0
        invariant states[..] == FinishedBelow(was, n) && AllSucceed(was, PlanTo(n), outcome)
      {
        err, n, m := RecoverNext(k, outcome, was);
        if err != 0 { return; }
      }
      PlanGoesOn(states.Length, states.Length);
      err := ResumeOne(n, outcome, was);
      if err != 0 { m := Failed(was, outcome, n, PlanTo(n), Turn(n, Resume), err); return; }
      n, m := n + 1, |Plan(states.Length)|;
      Completes(was, outcome);
      PlanResumesAll(states.Length);
    }

    /** The check recoveries of adm_hierarchy_run_recovery. outcome is what the
        check of a service answers, if it has something to check. A check down
        goes on after a failure, and only the last answer counts; a check up
        stops at the first failure. */
    method RecoverChecks(op: Op, outcome: nat -> int) returns (err: int, n: nat)
      requires op == CheckDown || op == CheckUp
      requires forall k | 0 <= k < states.Length :: states[k].op == Nothing || states[k].op == op
      modifies states
      ensures n <= states.Length
      ensures forall k | 0 <= k < n :: states[k] == Finish(old(states[k]), Count(old(states[k]), op))
      ensures forall k | n <= k < states.Length :: states[k] == old(states[k])
      ensures op == CheckDown ==> n == states.Length && err == LastAnswer(old(states[..]), op, outcome, n)
      ensures op == CheckUp ==> forall k | 0 <= k < n :: Count(old(states[k]), op) == 0 || outcome(k) == 0
      ensures op == CheckUp && n < states.Length ==> Count(old(states[n]), op) > 0 && err == outcome(n) != 0
      ensures (forall k | 0 <= k < states.Length :: Count(old(states[k]), op) == 0 || outcome(k) == 0) ==>
                err == 0 && n == states.Length
    {
      err, n := 0, 0;
      while n < states.Length
        invariant n <= states.Length
        invariant forall j | 0 <= j < n :: states[j] == Finish(old(states[j]), Count(old(states[j]), op))
        invariant forall j | n <= j < states.Length :: states[j] == old(states[j])
        invariant op == CheckUp ==> forall j | 0 <= j < n :: Count(old(states[j]), op) == 0 || outcome(j) == 0
        invariant (forall j | 0 <= j < n :: Count(old(states[j]), op) == 0 || outcome(j) == 0) ==> err == 0
        invariant err == LastAnswer(old(states[..]), op, outcome, n)
      {
        var handled := if op == CheckDown then states[n].checkDown else states[n].checkUp;
        if handled > 0 {
          err := outcome(n);
          if op == CheckUp && err != 0 {
            break;
          }
        }
        SyncAfter(n, handled);
        assert forall j | 0 <= j < states.Length :: states[j] == states[..][j];
        n := n + 1;
      }
    }

    /** One recovery of adm_hierarchy_run_recovery that is not interrupted. */
    method RunRecovery(op: Op, ghost l: seq<Service>, ghost nodes: set<nat>)
      requires StackOk(me, nodes, l) && op == Which(l) && op != Nothing && states[..] == Compute(l)
      modifies states
      ensures states[..] == CompleteAll(l)
    {
      if op == CheckDown || op == CheckUp {
        var err, n := RecoverChecks(op, _ => 0);
      } else {
        var outcome: (nat, Step) -> int := (_, _) => 0;
        forall k, step: Step | 0 <= k < |l| ensures StepSucceeds(states[..][k], k, step, outcome) {
          assert states[..][k] == Involve(l[k], op);
          NoStaleResource(me, nodes, l, k);
        }
        var err, n, m := RecoverUpDown(outcome);
      }
      assert states[..] == CompleteAll(l);
    }

    /** The loop of evmgr_process_events. When nothing else happens it runs at
        most seven recoveries, and then every service is committed up on
        exactly the nodes that are up. */
    method ProcessEvents(ghost nodes: set<nat>) returns (recoveries: nat)
      requires StackOk(me, nodes, states[..])
      modifies states
      ensures recoveries <= 7
      ensures forall k | 0 <= k < states.Length :: Settled(states[k], nodes)
    {
      recoveries := 0;
      ghost var l := states[..];
      var op := ComputeRecovery();
      while op != Nothing
        invariant StackOk(me, nodes, l) && op == Which(l) && states[..] == Compute(l)
        invariant recoveries + Rank(l) <= 7
        decreases Rank(l)
      {
        RankDrops(me, nodes, l);
        CompleteKeepsStack(me, nodes, l);
        RunRecovery(op, l, nodes);
        l := states[..];
        op := ComputeRecovery();
        recoveries := recoveries + 1;
      }
      NothingIsSettled(me, nodes, l);
      assert forall k | 0 <= k < states.Length :: states[k] == Involve(l[k], Nothing);
    }
  }
}
