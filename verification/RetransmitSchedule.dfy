/**
 Scheduling of retransmissions between the receiver thread and the sender
 thread (examsgd/network.c, examsgd/examsgd.c). The receiver thread notes the
 oldest message asked for and queues a request; between the two the sender
 thread may run.
 */
module RetransmitSchedule {
  import opened SequenceNumbers

  /** seq and isSched are struct retransmit_sched. wanted is the unbounded
      number behind seq. hand is the request the sender thread took from its
      mailbox, queue the mailbox, and gap the request noted but not yet queued;
      hand and gap hold at most one request. */
  datatype State = State(
    last: Mseq, isSched: bool, wanted: int,
    hand: seq<int>, queue: seq<int>, gap: seq<int>,
    networkUp: bool, begun: seq<int>)
  {
    /** All requests on their way to the sender thread, the oldest last. */
    function Pending(): seq<int> {
      hand + queue + gap
    }
  }

  datatype Event =
    | Request(w: int)      // schedule_retransmission, under its lock
    | Enqueue              // schedule_retransmission, the message
    | Take                 // local_mbox_event
    | Begin                // retransmit, up to the decision
    | Network(up: bool)

  /** schedule_retransmission, under the lock. */
  function Schedule(s: State, w: int): State {
    if s.isSched && AfterEq(Wrap(w), s.last) then s
    else s.(last := Wrap(w), isSched := true, wanted := w, gap := [w])
  }

  /** The decision at the start of retransmit. */
  function Decide(s: State): State
    requires s.hand != []
  {
    if Before(s.last, Wrap(s.hand[0])) && s.isSched then s.(hand := [])
    else s.(hand := [], last := 0, isSched := false, begun := s.begun + s.hand)
  }

  /** The request can be told apart from all those on their way. */
  predicate InWindow(s: State, w: int) {
    && (forall i | 0 <= i < |s.Pending()| :: Near(w, s.Pending()[i]))
    && (s.isSched ==> Near(w, s.wanted))
  }

  ghost predicate Next(s: State, e: Event, t: State) {
    match e
    case Request(w) => s.gap == [] && InWindow(s, w) && t == Schedule(s, w)
    case Enqueue => s.gap != [] && t == s.(queue := s.queue + s.gap, gap := [])
    case Take =>
      && s.hand == [] && s.queue != []
      && t == if s.networkUp then s.(hand := [s.queue[0]], queue := s.queue[1..])
              else s.(queue := s.queue[1..])
    case Begin => s.hand != [] && t == Decide(s)
    case Network(up) => t == s.(networkUp := up)
  }

  const INITIAL := State(0, false, 0, [], [], [], true, [])

  ghost predicate IsRun(run: seq<State>, events: seq<Event>) {
    && |run| == |events| + 1
    && run[0] == INITIAL
    && (forall i | 0 <= i < |events| :: Next(run[i], events[i], run[i + 1]))
  }

  predicate Decreasing(q: seq<int>) {
    forall i, j | 0 <= i < j < |q| :: q[i] > q[j] && Near(q[i], q[j])
  }

  ghost predicate Inv(s: State) {
    && |s.hand| <= 1 && |s.gap| <= 1
    && Decreasing(s.Pending())
    && (s.isSched ==> s.last == Wrap(s.wanted))
    && (s.Pending() != [] ==> s.isSched && s.wanted == s.Pending()[|s.Pending()| - 1])
  }

  lemma RequestKeepsInv(s: State, w: int)
    requires Inv(s) && s.gap == [] && InWindow(s, w)
    ensures Inv(Schedule(s, w))
  {
    var t := Schedule(s, w);
    if s.isSched { OrderAgrees(w, s.wanted); }
    if t != s {
      assert t.Pending() == s.Pending() + [w];
      forall i | 0 <= i < |s.Pending()| ensures s.Pending()[i] > w && Near(s.Pending()[i], w) {
        assert Near(w, s.Pending()[i]);
        assert s.Pending()[i] >= s.wanted;
      }
    }
  }

  lemma BeginKeepsInv(s: State)
    requires Inv(s) && s.hand != []
    ensures Inv(Decide(s))
    ensures |s.Pending()| == 1 <==> !Decide(s).isSched
  {
    var p, t := s.Pending(), Decide(s);
    assert s.wanted == p[|p| - 1] && p[0] == s.hand[0];
    OrderAgrees(s.wanted, s.hand[0]);
    assert t.Pending() == p[1..];
    assert forall i | 0 <= i < |p[1..]| :: p[1..][i] == p[i + 1];
  }

  lemma MoveKeepsInv(s: State, t: State)
    requires Inv(s) && t.Pending() == s.Pending() && |t.hand| <= 1 && |t.gap| <= 1
    requires t.last == s.last && t.isSched == s.isSched && t.wanted == s.wanted
    ensures Inv(t)
  {
  }

  lemma LossKeepsInv(s: State)
    requires Inv(s) && s.hand == [] && s.queue != []
    ensures Inv(s.(queue := s.queue[1..]))
  {
    var t := s.(queue := s.queue[1..]);
    assert t.Pending() == s.Pending()[1..];
    assert forall i | 0 <= i < |t.Pending()| :: t.Pending()[i] == s.Pending()[i + 1];
  }

  lemma StepKeepsInv(s: State, e: Event, t: State)
    requires Inv(s) && Next(s, e, t)
    ensures Inv(t)
  {
    match e {
      case Request(w) => RequestKeepsInv(s, w);
      case Enqueue =>
        assert t.Pending() == s.Pending();
        MoveKeepsInv(s, t);
      case Take =>
        if s.networkUp {
          assert t.Pending() == s.Pending();
          MoveKeepsInv(s, t);
        } else {
          LossKeepsInv(s);
        }
      case Begin => BeginKeepsInv(s);
      case Network(up) => MoveKeepsInv(s, t);
    }
  }

  lemma {:induction false} RunKeepsInv(run: seq<State>, events: seq<Event>, i: nat)
    requires IsRun(run, events) && i < |run|
    ensures Inv(run[i])
  {
    if i > 0 {
      RunKeepsInv(run, events, i - 1);
      assert Next(run[i - 1], events[i - 1], run[i]);
      StepKeepsInv(run[i - 1], events[i - 1], run[i]);
    }
  }

  /** Retransmission scheduling. Under every interleaving of the two threads
      the requests on their way to the sender thread get older and older and
      end at the one noted, so the assertion of retransmit that a request is
      noted never fails. */
  lemma ScheduleIsConsistent(run: seq<State>, events: seq<Event>, i: nat)
    requires IsRun(run, events) && i < |run|
    ensures var p := run[i].Pending();
            && (forall j, k | 0 <= j < k < |p| :: p[j] > p[k])
            && (p != [] ==> run[i].isSched && run[i].last == Wrap(p[|p| - 1]))
    ensures run[i].hand != [] ==> run[i].isSched
  {
    RunKeepsInv(run, events, i);
  }

  // ------------------------------------------------ when a mark is left behind

  /** A request is noted exactly while one is on its way. */
  predicate Matched(s: State) {
    s.isSched <==> s.Pending() != []
  }

  /** The only request on its way is taken while the network is down. */
  predicate Strands(s: State, e: Event) {
    e.Take? && !s.networkUp && |s.Pending()| == 1
  }

  /** A request is older than the one noted. */
  predicate Frees(s: State, e: Event) {
    e.Request? && e.w < s.wanted
  }

  /** One step: a matching note stops to match if and only if the only request
      is taken while the network is down, and a note left behind matches again
      if and only if an older request comes. */
  lemma StepMatches(s: State, e: Event, t: State)
    requires Inv(s) && Next(s, e, t)
    ensures Matched(t) <==> if Matched(s) then !Strands(s, e) else Frees(s, e)
    ensures Strands(s, e) ==> Matched(s)
  {
    match e {
      case Request(w) => RequestMatches(s, w);
      case Enqueue => assert t.Pending() == s.Pending();
      case Take => TakeMatches(s, t);
      case Begin => BeginMatches(s);
      case Network(_) => assert t.Pending() == s.Pending();
    }
  }

  lemma RequestMatches(s: State, w: int)
    requires s.isSched ==> s.last == Wrap(s.wanted)
    requires s.gap == [] && InWindow(s, w) && (s.Pending() != [] ==> s.isSched)
    ensures Matched(Schedule(s, w)) <==> Matched(s) || w < s.wanted
  {
    if s.isSched { OrderAgrees(w, s.wanted); }
    var t := Schedule(s, w);
    assert t != s ==> t.Pending() == s.Pending() + [w];
  }

  lemma TakeMatches(s: State, t: State)
    requires Next(s, Take, t) && (s.Pending() != [] ==> s.isSched)
    ensures Matched(s) && (Matched(t) <==> s.networkUp || |s.Pending()| > 1)
  {
    assert t.Pending() == if s.networkUp then s.Pending() else s.Pending()[1..];
  }

  lemma BeginMatches(s: State)
    requires Inv(s) && s.hand != []
    ensures Matched(s) && Matched(Decide(s))
  {
    BeginKeepsInv(s);
    assert Decide(s).Pending() == s.Pending()[1..];
  }

  lemma {:induction false} StaysStranded(run: seq<State>, events: seq<Event>, j: nat, i: nat)
    requires IsRun(run, events) && j < i <= |events| && Strands(run[j], events[j])
    requires forall k | j < k < i :: !Frees(run[k], events[k])
    ensures !Matched(run[i])
  {
    RunKeepsInv(run, events, i - 1);
    assert Next(run[i - 1], events[i - 1], run[i]);
    StepMatches(run[i - 1], events[i - 1], run[i]);
    if j < i - 1 {
      StaysStranded(run, events, j, i - 1);
    }
  }

  lemma {:induction false} WasStranded(run: seq<State>, events: seq<Event>, i: nat) returns (j: nat)
    requires IsRun(run, events) && i <= |events| && !Matched(run[i])
    ensures j < i && Strands(run[j], events[j])
    ensures forall k | j < k < i :: !Frees(run[k], events[k])
  {
    RunKeepsInv(run, events, i - 1);
    assert Next(run[i - 1], events[i - 1], run[i]);
    StepMatches(run[i - 1], events[i - 1], run[i]);
    j := i - 1;
    if !Strands(run[j], events[j]) {
      j := WasStranded(run, events, i - 1);
    }
  }

  /** In every run a request is noted exactly while one is on its way, if and
      only if after each time that the only request was taken while the network
      was down, a request older than the one noted has come. */
  lemma MatchedIff(run: seq<State>, events: seq<Event>, i: nat)
    requires IsRun(run, events) && i <= |events|
    ensures Matched(run[i]) <==>
            forall j | 0 <= j < i && Strands(run[j], events[j]) :: exists k | j < k < i :: Frees(run[k], events[k])
  {
    if Matched(run[i]) {
      forall j | 0 <= j < i && Strands(run[j], events[j])
        ensures exists k | j < k < i :: Frees(run[k], events[k])
      {
        if forall k | j < k < i :: !Frees(run[k], events[k]) {
          StaysStranded(run, events, j, i);
        }
      }
    } else {
      var j := WasStranded(run, events, i);
    }
  }

  /** The sender thread starts to send again exactly for the oldest request. */
  lemma OldestIsBegun(run: seq<State>, events: seq<Event>, i: nat)
    requires IsRun(run, events) && i < |events| && events[i] == Begin && run[i].hand != []
    ensures var p := run[i].Pending();
            run[i + 1].begun == run[i].begun + (if |p| == 1 then [p[0]] else [])
  {
    RunKeepsInv(run, events, i);
    var s := run[i];
    assert Next(s, Begin, run[i + 1]);
    assert s.Pending()[0] == s.hand[0] && s.wanted == s.Pending()[|s.Pending()| - 1];
    OrderAgrees(s.wanted, s.hand[0]);
    assert s.hand == [s.hand[0]];
  }

  /** The only request, taken while the network is down, leaves its mark behind. */
  lemma MarkCanOutliveRequests() returns (run: seq<State>, events: seq<Event>)
    ensures IsRun(run, events)
    ensures run[|events|].isSched && run[|events|].Pending() == [] && run[|events|].networkUp
  {
    var s1 := Schedule(INITIAL, 5);
    var s2 := s1.(queue := [5], gap := []);
    var s3 := s2.(networkUp := false);
    var s4 := s3.(queue := []);
    var s5 := s4.(networkUp := true);
    run := [INITIAL, s1, s2, s3, s4, s5];
    events := [Request(5), Enqueue, Network(false), Take, Network(true)];
    assert Next(INITIAL, Request(5), s1) && Next(s1, Enqueue, s2) && Next(s2, Network(false), s3);
    assert Next(s3, Take, s4) && Next(s4, Network(true), s5);
  }

  /** While a mark is left behind, a request has an effect if and only if it is
      older than the mark: all others are dropped. */
  lemma MarkDropsRequests(s: State, w: int)
    requires Inv(s) && !Matched(s) && InWindow(s, w)
    ensures Schedule(s, w) != s <==> w < s.wanted
  {
    OrderAgrees(w, s.wanted);
  }

  /** struct retransmit_sched as the two threads update it. */
  class Scheduler {
    var last: Mseq
    var isSched: bool

    /** schedule_retransmission; queued tells whether a request is queued. */
    method Request(wanted: Mseq) returns (queued: bool)
      modifies this
      ensures forall s: State, w: int ::
                old(last) == s.last && old(isSched) == s.isSched && Wrap(w) == wanted && s.gap == [] ==>
                last == Schedule(s, w).last && isSched == Schedule(s, w).isSched && queued == (Schedule(s, w).gap == [w])
    {
      if isSched && AfterEq(wanted, last) {
        return false;
      }
      last := wanted;
      isSched := true;
      return true;
    }

    /** The head of retransmit; go tells whether messages are sent again. */
    method Begin(count: Mseq) returns (go: bool)
      requires isSched
      modifies this
      ensures forall s: State ::
                old(last) == s.last && old(isSched) == s.isSched && |s.hand| == 1 && Wrap(s.hand[0]) == count ==>
                last == Decide(s).last && isSched == Decide(s).isSched && go == (Decide(s).begun != s.begun)
    {
      if Before(last, count) && isSched {
        return false;
      }
      last := 0;
      isSched := false;
      return true;
    }
  }
}
