/**
 What a run of the recovery engine did to a service (admind/src/instance.c):
 which events and which finished recoveries account for its state. No check is
 lost or run twice, and no node is forgotten.
 */
module RecoveryHistory {
  import opened Recovery
  import opened RecoveryRuns

  /** A recovery op of service k is finished in step e from state l. */
  predicate Finishes(l: Leader, e: Event, k: nat, op: Op) {
    e == EvFinish && l.phase.Running? && l.phase.next == k && k < |l.services| && l.services[k].op == op
  }

  // ------------------------------------------------------------------ checks

  /** How often event e came in the first i steps. */
  function Came(events: seq<Event>, e: Event, i: nat): nat
    requires i <= |events|
  {
    if i == 0 then 0 else Came(events, e, i - 1) + if events[i - 1] == e then 1 else 0
  }

  /** The checks that recoveries op of service k had read when they finished, in
      the first i steps. */
  function Handled(run: seq<Leader>, events: seq<Event>, k: nat, op: Op, i: nat): nat
    requires |run| == |events| + 1 && i <= |events|
  {
    if i == 0 then 0
    else
      Handled(run, events, k, op, i - 1)
      + if Finishes(run[i - 1], events[i - 1], k, op) then run[i - 1].phase.read else 0
  }

  lemma ChecksAfterStep(l: Leader, e: Event, r: Leader, k: nat)
    requires LeaderInv(l) && Next(l, e, r) && k < |l.services|
    ensures |r.services| == |l.services|
    ensures r.services[k].checkDown == l.services[k].checkDown + (if e == EvCheckDown(k) then 1 else 0)
                                       - (if Finishes(l, e, k, CheckDown) then l.phase.read else 0)
    ensures r.services[k].checkUp == l.services[k].checkUp + (if e == EvCheckUp(k) then 1 else 0)
                                     - (if Finishes(l, e, k, CheckUp) then l.phase.read else 0)
  {
  }

  /** Conservation of checks. In every run, the checks pending for a service are
      those that came less those that finished check recoveries had read: a
      check that comes after the reading stays, and none is counted twice. */
  lemma {:induction false} ChecksAreConserved(run: seq<Leader>, events: seq<Event>, i: nat, k: nat)
    requires IsRun(run, events) && i < |run| && k < |run[0].services|
    ensures |run[i].services| == |run[0].services|
    ensures run[i].services[k].checkDown + Handled(run, events, k, CheckDown, i) == Came(events, EvCheckDown(k), i)
    ensures run[i].services[k].checkUp + Handled(run, events, k, CheckUp, i) == Came(events, EvCheckUp(k), i)
  {
    if i > 0 {
      ChecksAreConserved(run, events, i - 1, k);
      RunKeepsInv(run, events, i - 1);
      assert Next(run[i - 1], events[i - 1], run[i]);
      ChecksAfterStep(run[i - 1], events[i - 1], run[i], k);
    }
  }

  // ------------------------------------------------------------------- nodes

  /** Service s has node x, or is bringing it up. */
  predicate Has(s: Service, x: nat) {
    x in s.committed || (s.op == Up && x in s.involved)
  }

  /** Recovery op of service k, in which node x takes part, is finished. */
  predicate FinishesNode(l: Leader, e: Event, k: nat, op: Op, x: nat) {
    Finishes(l, e, k, op) && x in l.services[k].involved
  }

  lemma NodesAfterStep(l: Leader, e: Event, r: Leader, k: nat, x: nat)
    requires LeaderInv(l) && Next(l, e, r) && k < |l.services|
    ensures |r.services| == |l.services|
    ensures x in r.services[k].up <==> e == EvUp(x) || (x in l.services[k].up && e != EvDown(x))
    ensures x in r.services[k].committed <==>
            FinishesNode(l, e, k, Up, x) || (x in l.services[k].committed && !FinishesNode(l, e, k, Down, x))
    ensures x in r.services[k].down <==>
            || (e == EvDown(x) && Has(l.services[k], x))
            || (x in l.services[k].down && !FinishesNode(l, e, k, Down, x) && !(e == EvUp(x) && !Has(l.services[k], x)))
  {
    var s := l.services[k];
    assert OneOk(l.me, l.services[0].up, s);
    if e == EvDown(x) {
      NodeDownIsKept(l.me, l.services[0].up, s, x);
    }
    match e {
      case EvSyncBefore(j) => SyncBeforeIsIdentity(l.me, l.services[0].up, l.services[j]);
      case _ =>
    }
  }

  /** What accounts for a node, in every step of every run. A node is wanted up
      from its up event to its down event. It has the service from a finished
      recovery up to a finished recovery down. It is pending down from a down
      event, if the service has it or is bringing it up, to a finished recovery
      down, or to an up event when the service neither has it nor is bringing it
      up. */
  lemma NodesAreAccountedFor(run: seq<Leader>, events: seq<Event>, i: nat, k: nat, x: nat)
    requires IsRun(run, events) && i < |events| && k < |run[i].services|
    ensures |run[i + 1].services| == |run[i].services|
    ensures var s, t, e := run[i].services[k], run[i + 1].services[k], events[i];
            && (x in t.up <==> e == EvUp(x) || (x in s.up && e != EvDown(x)))
            && (x in t.committed <==>
                  FinishesNode(run[i], e, k, Up, x) || (x in s.committed && !FinishesNode(run[i], e, k, Down, x)))
            && (x in t.down <==>
                  || (e == EvDown(x) && Has(s, x))
                  || (x in s.down && !FinishesNode(run[i], e, k, Down, x) && !(e == EvUp(x) && !Has(s, x))))
  {
    RunKeepsInv(run, events, i);
    assert Next(run[i], events[i], run[i + 1]);
    NodesAfterStep(run[i], events[i], run[i + 1], k, x);
  }

  /** Only a recovery up starts a service: in every run, a service that is up
      nowhere takes part in no other recovery. */
  lemma {:induction false} OnlyUpStarts(run: seq<Leader>, events: seq<Event>, i: nat, k: nat)
    requires IsRun(run, events) && i < |run| && k < |run[i].services| && run[i].services[k].committed == {}
    ensures run[i].services[k].op == Nothing || run[i].services[k].op == Up
  {
    if i > 0 {
      RunKeepsInv(run, events, i - 1);
      assert Next(run[i - 1], events[i - 1], run[i]);
      NothingIsTakenFromMe(run[i - 1], events[i - 1], run[i], k);
      if run[i - 1].services[k].committed == {} {
        OnlyUpStarts(run, events, i - 1, k);
      }
    }
  }

  lemma NothingIsTakenFromMe(l: Leader, e: Event, r: Leader, k: nat)
    requires LeaderInv(l) && Next(l, e, r) && k < |r.services|
    ensures |r.services| == |l.services| && (r.services[k].committed == {} ==> l.services[k].committed == {})
  {
    NodesAfterStep(l, e, r, k, l.me);
    assert OneOk(l.me, l.services[0].up, l.services[k]);
  }

  // --------------------------------------------------------------- resources

  /** Changed resources are noted while the local node has the service, until a
      recovery of that kind is finished. */
  lemma ResourcesAreAccountedFor(run: seq<Leader>, events: seq<Event>, i: nat, k: nat)
    requires IsRun(run, events) && i < |events| && k < |run[i].services|
    ensures |run[i + 1].services| == |run[i].services|
    ensures var s, t, e := run[i].services[k], run[i + 1].services[k], events[i];
            var local := run[i].me in s.committed;
            && (t.resDown <==> (e == EvResourceDown(k) && local) || (s.resDown && !Finishes(run[i], e, k, Down)))
            && (t.resUp <==> (e == EvResourceUp(k) && local) || (s.resUp && !Finishes(run[i], e, k, Up)))
  {
    assert Next(run[i], events[i], run[i + 1]);
  }
}
