/**
 The receiving side of the multicast protocol (examsgd/network.c,
 examsgd/examsgd.c), for the messages of one source node other than the local
 one.

 The source numbers its messages without bound in every incarnation. The
 network may lose, repeat and reorder packets. Packets reach the receiver
 within the window in which sixteen-bit numbers can be told apart.
 */
module ReceiveStream {
  import opened SequenceNumbers

  /** EXAMSG_NETMSG_BUFFER */
  const RING: nat := 511

  /** struct mcastnodestate, the fields used by the receiver. */
  datatype Source = Source(
    count: Mseq,           // number of the last message received
    initialized: bool,     // whether count is initialised
    requested: bool,       // whether a retransmission has been asked for
    incarnation: nat,
    seenUp: bool,
    fenced: bool)

  /** The contents of a packet on the wire. */
  datatype Body =
    | PingBody(last: Mseq)
    | RetransmitBody
    | SpecialBody
    | DataBody(count: Mseq, forUs: bool)

  /** What network_recv does with a packet. */
  datatype Outcome =
    | Dropped
    | Requested(missed: Mseq)   // a retransmission from missed on is asked for
    | Passed                    // given to the caller, outside the sequence
    | Filtered                  // taken in sequence, but for other nodes
    | Taken                     // taken in sequence and given to the caller
    | Died                      // too many messages lost

  /** network_fence, for a node other than the local one. */
  function Fence(s: Source): Source {
    s.(initialized := false, fenced := true, seenUp := false)
  }

  /** network_saw_node_up */
  function SawUp(s: Source): Source {
    s.(seenUp := true)
  }

  /** network_ignore_message */
  function Ignore(s: Source): Source {
    s.(count := Wrap(s.count - 1))
  }

  /** checkseq and the filter on destinations. */
  function CheckSeq(s: Source, count: Mseq, forUs: bool): (Source, Outcome) {
    match Classify(count, s.count, RING)
    case InSequence => (s.(count := Wrap(s.count + 1), requested := false), if forUs then Taken else Filtered)
    case Duplicate => (s, Dropped)
    case Lost => if s.requested then (s, Dropped) else (s.(requested := true), Requested(Wrap(s.count + 1)))
    case Fatal => (s, Died)
  }

  /** A packet of a source that is not fenced and whose count is initialised. */
  function ReceiveOpen(s: Source, b: Body): (Source, Outcome) {
    match b
    case PingBody(last) =>
      if s.count != last && !s.requested then (s.(requested := true), Requested(Wrap(s.count + 1))) else (s, Passed)
    case RetransmitBody => (s, Dropped)
    case SpecialBody => (s, Passed)
    case DataBody(count, forUs) => CheckSeq(s, count, forUs)
  }

  /** A new incarnation of a node that was fenced or not seen up is let in. */
  function Readmit(s: Source, incarnation: nat): Source {
    if incarnation != s.incarnation && (s.fenced || !s.seenUp)
    then s.(incarnation := incarnation, fenced := false, initialized := false) else s
  }

  /** network_recv for a valid packet of a known source. */
  function Receive(s: Source, fenceAll: bool, incarnation: nat, b: Body): (Source, Outcome) {
    var t := Readmit(s, incarnation);
    if t.fenced || fenceAll || incarnation != t.incarnation then (t, Dropped)
    else if !t.initialized then
      if b.PingBody? then (t.(count := b.last, initialized := true), Dropped) else (t, Dropped)
    else ReceiveOpen(t, b)
  }

  // --------------------------------------------------------------- the system

  /** A packet with the unbounded number behind the one on the wire. */
  datatype Packet =
    | Ping(incarnation: nat, index: nat)
    | Data(incarnation: nat, index: nat, forUs: bool)
    | Retransmit(incarnation: nat)
    | Special(incarnation: nat)

  function BodyOf(p: Packet): Body {
    match p
    case Ping(_, n) => PingBody(Wrap(n))
    case Data(_, n, u) => DataBody(Wrap(n), u)
    case Retransmit(_) => RetransmitBody
    case Special(_) => SpecialBody
  }

  /** The messages taken since a ping with number base initialised the count. */
  datatype Epoch = Epoch(incarnation: nat, base: nat, taken: seq<Packet>)

  /** delivering says that the receiver thread is about to deliver the last
      message taken; epochs are the past epochs, epoch the current one. */
  datatype Receiver = Receiver(source: Source, fenceAll: bool, delivering: bool, epochs: seq<Epoch>, epoch: Epoch)
  {
    function Position(): nat {
      epoch.base + |epoch.taken|
    }
  }

  datatype Event =
    | Arrive(packet: Packet)
    | Delivered          // the mailbox took the message, or does not exist
    | MailboxFull
    | FenceNode
    | FenceSelf          // network_fence of the local node
    | NodeSeenUp
    | RequestSent        // the sender thread has sent or dropped the request

  /** The packet passes the fences and finds the count initialised. */
  predicate Reaches(r: Receiver, p: Packet) {
    var t := Readmit(r.source, p.incarnation);
    t.initialized && !t.fenced && !r.fenceAll && p.incarnation == t.incarnation
  }

  /** A message that reaches the check of the sequence is near the last one. */
  predicate InWindow(r: Receiver, p: Packet) {
    p.Data? && Reaches(r, p) ==> -32766 <= p.index - r.Position() <= 32767
  }

  function Arrived(r: Receiver, p: Packet): Receiver {
    var (s, o) := Receive(r.source, r.fenceAll, p.incarnation, BodyOf(p));
    var t := r.(source := s, delivering := o == Taken);
    if s.initialized && !Readmit(r.source, p.incarnation).initialized && p.Ping? then
      t.(epochs := r.epochs + [r.epoch], epoch := Epoch(p.incarnation, p.index, []))
    else if o == Taken || o == Filtered then
      t.(epoch := r.epoch.(taken := r.epoch.taken + [p]))
    else t
  }

  ghost predicate Next(r: Receiver, e: Event, t: Receiver) {
    match e
    case Arrive(p) =>
      && !r.delivering && InWindow(r, p)
      && Receive(r.source, r.fenceAll, p.incarnation, BodyOf(p)).1 != Died
      && t == Arrived(r, p)
    case Delivered => r.delivering && t == r.(delivering := false)
    case MailboxFull =>
      && r.delivering && r.epoch.taken != []
      && t == r.(delivering := false, source := Ignore(r.source),
                 epoch := r.epoch.(taken := r.epoch.taken[..|r.epoch.taken| - 1]))
    case FenceNode => t == r.(source := Fence(r.source))
    case FenceSelf => t == r.(fenceAll := true)
    case NodeSeenUp => t == r.(source := SawUp(r.source))
    case RequestSent => t == r.(source := r.source.(requested := false))
  }

  const FRESH := Source(0, false, false, 0, false, false)

  ghost predicate IsRun(run: seq<Receiver>, events: seq<Event>) {
    && |run| == |events| + 1
    && run[0] == Receiver(Fence(FRESH), false, false, [], Epoch(0, 0, []))
    && (forall i | 0 <= i < |events| :: Next(run[i], events[i], run[i + 1]))
  }

  /** The messages taken are consecutive messages of one incarnation, starting
      after the base. */
  predicate InOrder(e: Epoch) {
    forall i | 0 <= i < |e.taken| ::
      e.taken[i].Data? && e.taken[i].incarnation == e.incarnation && e.taken[i].index == e.base + 1 + i
  }

  predicate ReceiverInv(r: Receiver) {
    && InOrder(r.epoch)
    && (forall i | 0 <= i < |r.epochs| :: InOrder(r.epochs[i]))
    && r.source.count == Wrap(r.Position())
    && (r.source.initialized ==> r.source.incarnation == r.epoch.incarnation)
    && (r.delivering ==> r.epoch.taken != [] && r.epoch.taken[|r.epoch.taken| - 1].forUs)
  }

  /** A message that reaches the check is taken exactly when it is the next
      one, and the source then stands at its number. */
  lemma CheckTakesNext(s: Source, position: nat, index: nat, forUs: bool)
    requires s.count == Wrap(position) && -32766 <= index - position <= 32767
    ensures var (t, o) := CheckSeq(s, Wrap(index), forUs);
            && (o == Taken <==> forUs && index == position + 1)
            && (o == Filtered <==> !forUs && index == position + 1)
            && t.count == (if index == position + 1 then Wrap(position + 1) else s.count)
            && t.initialized == s.initialized && t.incarnation == s.incarnation
  {
    ClassesAreRanges(index, position, RING);
    WrapSum(position, 1);
  }

  lemma ArriveKeepsInv(r: Receiver, p: Packet)
    requires ReceiverInv(r) && !r.delivering && InWindow(r, p)
    ensures ReceiverInv(Arrived(r, p))
  {
    if p.Data? && Reaches(r, p) {
      var t := Readmit(r.source, p.incarnation);
      assert t.count == r.source.count && r.source.initialized;
      CheckTakesNext(t, r.Position(), p.index, p.forUs);
      assert Receive(r.source, r.fenceAll, p.incarnation, BodyOf(p)) == CheckSeq(t, Wrap(p.index), p.forUs);
    }
  }

  lemma StepKeepsInv(r: Receiver, e: Event, t: Receiver)
    requires ReceiverInv(r) && Next(r, e, t)
    ensures ReceiverInv(t)
  {
    match e {
      case Arrive(p) => ArriveKeepsInv(r, p);
      case MailboxFull => WrapSum(r.Position(), -1);
      case _ =>
    }
  }

  lemma {:induction false} RunKeepsInv(run: seq<Receiver>, events: seq<Event>, i: nat)
    requires IsRun(run, events) && i < |run|
    ensures ReceiverInv(run[i])
  {
    if i > 0 {
      RunKeepsInv(run, events, i - 1);
      assert Next(run[i - 1], events[i - 1], run[i]);
      StepKeepsInv(run[i - 1], events[i - 1], run[i]);
    }
  }

  /** In-order stream. In every run, for every period between two
      initialisations of the count, the messages taken in sequence and not
      undone by a full mailbox are a run of the sender's stream without gap,
      duplicate or reordering, and the count on the wire is the number of the
      last one. */
  lemma StreamIsInOrder(run: seq<Receiver>, events: seq<Event>, i: nat, k: nat)
    requires IsRun(run, events) && i < |run| && k <= |run[i].epochs|
    ensures var e := if k < |run[i].epochs| then run[i].epochs[k] else run[i].epoch;
            forall j | 0 <= j < |e.taken| ::
              e.taken[j].Data? && e.taken[j].incarnation == e.incarnation && e.taken[j].index == e.base + 1 + j
    ensures run[i].source.count == Wrap(run[i].epoch.base + |run[i].epoch.taken|)
  {
    RunKeepsInv(run, events, i);
    assert k < |run[i].epochs| ==> InOrder(run[i].epochs[k]);
  }

  /** A message is undone only while it is the last one taken. */
  lemma MailboxFullIsEnabled(run: seq<Receiver>, events: seq<Event>, i: nat)
    requires IsRun(run, events) && i < |run| && run[i].delivering
    ensures exists t :: Next(run[i], MailboxFull, t)
  {
    RunKeepsInv(run, events, i);
    var r := run[i];
    var t := r.(delivering := false, source := Ignore(r.source),
                epoch := r.epoch.(taken := r.epoch.taken[..|r.epoch.taken| - 1]));
    assert Next(r, MailboxFull, t);
  }

  // ----------------------------------------------- what becomes of every packet

  /** A source in state s lets in packets of the given incarnation. */
  predicate LetsIn(s: Source, incarnation: nat) {
    if incarnation == s.incarnation then !s.fenced else s.fenced || !s.seenUp
  }

  /** What a packet that reaches the receiver leads to, in terms of the numbers
      behind those on the wire. */
  function Fate(p: Packet, position: nat, requested: bool): Outcome {
    match p
    case Ping(_, n) => if n == position || requested then Passed else Requested(Wrap(position + 1))
    case Retransmit(_) => Dropped
    case Special(_) => Passed
    case Data(_, n, forUs) =>
      if n == position + 1 then (if forUs then Taken else Filtered)
      else if n <= position then Dropped
      else if n < position + RING then (if requested then Dropped else Requested(Wrap(position + 1)))
      else Died
  }

  lemma OpenFate(s: Source, p: Packet, position: nat)
    requires s.count == Wrap(position)
    requires p.Ping? ==> -MODULUS < p.index - position < MODULUS
    requires p.Data? ==> -32766 <= p.index - position <= 32767
    ensures var (t, o) := ReceiveOpen(s, BodyOf(p));
            && o == Fate(p, position, s.requested)
            && t.requested == (o.Requested? || (s.requested && o != Taken && o != Filtered))
  {
    WrapSum(position, 1);
    match p {
      case Ping(_, n) => if n != position { WrapDiffers(n, position); }
      case Data(_, n, _) => ClassesAreRanges(n, position, RING);
      case _ =>
    }
  }

  /** The fate of every packet. In every run, a packet that reaches the receiver
      is passed on, dropped, taken or answered with a request exactly by its kind
      and by where its number lies; a ping makes the receiver ask if and only if
      its number is not the one of the last message and no request is out. Any
      other packet is dropped. */
  lemma PacketsHaveFates(run: seq<Receiver>, events: seq<Event>, i: nat, p: Packet)
    requires IsRun(run, events) && i < |events| && events[i] == Arrive(p)
    requires p.Ping? ==> -MODULUS < p.index - run[i].Position() < MODULUS
    ensures var r, t := run[i], run[i + 1];
            var o := Receive(r.source, r.fenceAll, p.incarnation, BodyOf(p)).1;
            var reaches := r.source.initialized && !r.fenceAll && p.incarnation == r.source.incarnation
                           && LetsIn(r.source, p.incarnation);
            && (if reaches then o == Fate(p, r.Position(), r.source.requested) else o == Dropped)
            && t.source.requested == (o.Requested? || (r.source.requested && o != Taken && o != Filtered))
            && (t.delivering <==> o == Taken)
            && (reaches ==> t.Position() == r.Position() + if o == Taken || o == Filtered then 1 else 0)
  {
    RunKeepsInv(run, events, i);
    var r := run[i];
    assert Next(r, Arrive(p), run[i + 1]);
    if Reaches(r, p) {
      assert Readmit(r.source, p.incarnation) == r.source;
      OpenFate(r.source, p, r.Position());
    }
  }

  /** A new position comes from a ping only: when the source lets in its
      incarnation and the count is not initialised, or the incarnation is new. */
  lemma PingsInitialise(run: seq<Receiver>, events: seq<Event>, i: nat, p: Packet)
    requires IsRun(run, events) && i < |events| && events[i] == Arrive(p)
    ensures var r, t := run[i], run[i + 1];
            |t.epochs| > |r.epochs| <==>
              p.Ping? && !r.fenceAll && LetsIn(r.source, p.incarnation)
              && (!r.source.initialized || p.incarnation != r.source.incarnation)
    ensures |run[i + 1].epochs| > |run[i].epochs| ==>
              run[i + 1].source.initialized && run[i + 1].epoch == Epoch(p.incarnation, p.index, [])
  {
    assert Next(run[i], Arrive(p), run[i + 1]);
  }

  // ------------------------------------------------------------------- fences

  /** No packet of another incarnation arrives from step i on, before step j. */
  predicate OnlyFrom(events: seq<Event>, i: nat, j: nat, incarnation: nat) {
    forall k | i <= k < j && k < |events| :: events[k].Arrive? ==> events[k].packet.incarnation == incarnation
  }

  lemma FencedStaysFenced(r: Receiver, e: Event, t: Receiver)
    requires Next(r, e, t) && r.source.fenced && !r.source.initialized
    requires e.Arrive? ==> e.packet.incarnation == r.source.incarnation
    ensures t.source.fenced && !t.source.initialized && t.source.incarnation == r.source.incarnation
    ensures t.epochs == r.epochs && (e != MailboxFull ==> t.epoch == r.epoch)
  {
  }

  /** A fence holds. After a node has been fenced, nothing that it sends in the
      same incarnation has an effect, in any run. */
  lemma {:induction false} FenceHolds(run: seq<Receiver>, events: seq<Event>, i: nat, j: nat)
    requires IsRun(run, events) && i < j <= |events| && events[i] == FenceNode
    requires OnlyFrom(events, i, j, run[i].source.incarnation)
    ensures run[j].source.fenced && !run[j].source.initialized && run[j].source.incarnation == run[i].source.incarnation
    ensures run[j].epochs == run[i].epochs && |run[j].epoch.taken| <= |run[i].epoch.taken|
  {
    assert Next(run[j - 1], events[j - 1], run[j]);
    if j > i + 1 {
      FenceHolds(run, events, i, j - 1);
      FencedStaysFenced(run[j - 1], events[j - 1], run[j]);
    }
  }

  /** A node that has been seen up keeps its incarnation until it is fenced: what
      comes from another incarnation has no effect, in any run. */
  lemma {:induction false} SeenUpHolds(run: seq<Receiver>, events: seq<Event>, i: nat, j: nat)
    requires IsRun(run, events) && i < j <= |events| && events[i] == NodeSeenUp && !run[i].source.fenced
    requires forall k | i <= k < j :: events[k] != FenceNode
    ensures run[j].source.seenUp && !run[j].source.fenced && run[j].source.incarnation == run[i].source.incarnation
  {
    assert Next(run[j - 1], events[j - 1], run[j]);
    if j > i + 1 { SeenUpHolds(run, events, i, j - 1); }
  }

  /** A fence of the local node is final. */
  lemma {:induction false} SelfFenceHolds(run: seq<Receiver>, events: seq<Event>, i: nat, j: nat)
    requires IsRun(run, events) && i < j <= |events| && events[i] == FenceSelf
    ensures run[j].fenceAll && run[j].epochs == run[i].epochs && |run[j].epoch.taken| <= |run[i].epoch.taken|
  {
    assert Next(run[j - 1], events[j - 1], run[j]);
    if j > i + 1 { SelfFenceHolds(run, events, i, j - 1); }
  }

  // ---------------------------------------------------------- as the program

  /** The state of a source as the receiver thread updates it in place. */
  class SourceState {
    var count: Mseq
    var initialized: bool
    var requested: bool
    var incarnation: nat
    var seenUp: bool
    var fenced: bool

    ghost function State(): Source
      reads this
    {
      Source(count, initialized, requested, incarnation, seenUp, fenced)
    }

    /** checkseq: 0 is to be processed, 1 not, -1 is fatal; request tells
        whether a retransmission request is sent. */
    method Check(number: Mseq) returns (result: int, request: bool)
      modifies this
      ensures State() == CheckSeq(old(State()), number, true).0
      ensures result == 0 <==> CheckSeq(old(State()), number, true).1 == Taken
      ensures result == -1 <==> CheckSeq(old(State()), number, true).1 == Died
      ensures request <==> CheckSeq(old(State()), number, true).1.Requested?
    {
      request := false;
      if Dist(number, count) == 1 && Before(count, number) {
        count := Wrap(count + 1);
        requested := false;
        return 0, false;
      }
      if Before(number, Wrap(count + 1)) {
        return 1, false;
      }
      if Before(number, Wrap(count + RING)) {
        if !requested {
          requested := true;
          return 1, true;
        }
        return 1, false;
      }
      return -1, false;
    }

    /** network_recv, from the examination of the incarnation on. */
    method Recv(fenceAll: bool, inca: nat, b: Body) returns (outcome: Outcome)
      modifies this
      ensures (State(), outcome) == Receive(old(State()), fenceAll, inca, b)
    {
      if inca != incarnation && (fenced || !seenUp) {
        incarnation := inca;
        fenced := false;
        initialized := false;
      }
      if fenced || fenceAll || inca != incarnation {
        return Dropped;
      }
      if !initialized {
        if b.PingBody? {
          count := b.last;
          initialized := true;
        }
        return Dropped;
      }
      if b.PingBody? {
        if count != b.last && !requested {
          requested := true;
          return Requested(Wrap(count + 1));
        }
      }
      if b.RetransmitBody? {
        return Dropped;
      }
      if b.DataBody? {
        var missed := Wrap(count + 1);
        var n, request := Check(b.count);
        if n == -1 {
          return Died;
        }
        if n != 0 {
          return if request then Requested(missed) else Dropped;
        }
        return if b.forUs then Taken else Filtered;
      }
      return Passed;
    }
  }
}
