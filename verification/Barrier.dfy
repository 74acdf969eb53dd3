/**
 The barriers of a local command that every member executes
 (admind/src/rpc.c), when no member fails. Each node counts the barriers it has
 entered, its rank, and reads one of two mailboxes, chosen by the parity of the
 rank. A message may take any time to arrive, so a node may receive any message
 that was sent to the mailbox it reads.
 */
module Barrier {
  import opened BarrierVerdict

  /** rank is what the sender's rank was; the program sends only its parity, as
      the choice of the mailbox. */
  datatype Msg = Msg(receiver: nat, sender: nat, rank: nat, code: Code)

  /** codes and verdicts tell with what the node entered and left each barrier,
      got what it has received in the current one. */
  datatype Node = Node(codes: seq<Code>, waiting: set<nat>, got: seq<Msg>, verdicts: seq<Code>) {
    function Rank(): nat {
      |codes|
    }

    predicate Inside() {
      |verdicts| < |codes|
    }
  }

  datatype System = System(nodes: map<nat, Node>, net: set<Msg>)

  datatype Event = Enter(node: nat, code: Code) | Receive(node: nat, msg: Msg) | Leave(node: nat)

  ghost predicate Initial(s: System) {
    s.net == {} && forall n | n in s.nodes :: s.nodes[n] == Node([], {}, [], [])
  }

  /** The broadcast of node n, itself included. */
  function Broadcast(members: set<nat>, n: nat, rank: nat, code: Code): set<Msg> {
    set r | r in members :: Msg(r, n, rank, code)
  }

  function Entered(members: set<nat>, n: Node, code: Code): Node {
    n.(codes := n.codes + [code], waiting := members, got := [])
  }

  function Received(n: Node, m: Msg): Node {
    n.(waiting := n.waiting - {m.sender}, got := n.got + [m])
  }

  function Codes(ms: seq<Msg>): seq<Code> {
    seq(|ms|, i requires 0 <= i < |ms| => ms[i].code)
  }

  function Left(n: Node): Node {
    n.(verdicts := n.verdicts + [Verdict(Messages(Codes(n.got)))])
  }

  ghost predicate Next(s: System, e: Event, t: System) {
    && e.node in s.nodes
    && var n := s.nodes[e.node];
       match e
       case Enter(i, code) =>
         && !n.Inside()
         && t.nodes == s.nodes[i := Entered(s.nodes.Keys, n, code)]
         && t.net == s.net + Broadcast(s.nodes.Keys, i, n.Rank() + 1, code)
       case Receive(i, m) =>
         && n.Inside() && n.waiting != {}
         && m in s.net && m.receiver == i && m.rank % 2 == n.Rank() % 2
         && t.nodes == s.nodes[i := Received(n, m)]
         && t.net == s.net - {m}
       case Leave(i) =>
         && n.Inside() && n.waiting == {}
         && t.nodes == s.nodes[i := Left(n)]
         && t.net == s.net
  }

  ghost predicate IsRun(run: seq<System>, events: seq<Event>) {
    && |run| == |events| + 1
    && Initial(run[0])
    && (forall i | 0 <= i < |events| :: Next(run[i], events[i], run[i + 1]))
  }

  // ---------------------------------------------------------------- invariant

  /** Nobody is more than one barrier ahead: whoever has left a barrier, all
      have entered it. */
  predicate PairOk(a: Node, b: Node) {
    && |a.verdicts| <= a.Rank() <= |a.verdicts| + 1
    && |a.verdicts| <= b.Rank()
  }

  ghost predicate RanksOk(s: System) {
    forall a, b | a in s.nodes && b in s.nodes :: PairOk(s.nodes[a], s.nodes[b])
  }

  /** A message tells with what its sender entered a barrier. */
  predicate Truthful(s: System, m: Msg) {
    && m.sender in s.nodes
    && 1 <= m.rank <= s.nodes[m.sender].Rank()
    && m.code == s.nodes[m.sender].codes[m.rank - 1]
  }

  /** A message under way is for a barrier its receiver has not left, and if
      the receiver is inside that barrier it waits for the sender. */
  predicate MsgOk(s: System, m: Msg) {
    && Truthful(s, m)
    && m.receiver in s.nodes
    && m.rank > |s.nodes[m.receiver].verdicts|
    && (s.nodes[m.receiver].Inside() && m.rank == s.nodes[m.receiver].Rank() ==> m.sender in s.nodes[m.receiver].waiting)
  }

  ghost predicate NetOk(s: System) {
    forall m | m in s.net :: MsgOk(s, m)
  }

  /** A node inside a barrier has messages of that barrier only, from all it
      does not wait for any more. */
  ghost predicate GotOk(s: System, n: nat)
    requires n in s.nodes
  {
    var node := s.nodes[n];
    && node.waiting <= s.nodes.Keys
    && (forall i | 0 <= i < |node.got| :: Truthful(s, node.got[i]))
    && (node.Inside() ==> forall i | 0 <= i < |node.got| :: node.got[i].rank == node.Rank())
    && (node.Inside() ==> forall m | m in s.nodes && m !in node.waiting :: HasFrom(node.got, m))
  }

  predicate HasFrom(ms: seq<Msg>, sender: nat) {
    exists i | 0 <= i < |ms| :: ms[i].sender == sender
  }

  /** If m has entered the barrier that n is inside and n waits for m, then the
      message of m is under way; and no message of m for the barrier that n has
      yet to enter is lost. */
  predicate ComingFrom(s: System, n: nat, m: nat)
    requires n in s.nodes && m in s.nodes
  {
    var r, node := s.nodes[n].Rank(), s.nodes[m];
    && (s.nodes[n].Inside() && m in s.nodes[n].waiting && node.Rank() >= r ==> Msg(n, m, r, node.codes[r - 1]) in s.net)
    && (node.Rank() > r ==> Msg(n, m, node.Rank(), node.codes[node.Rank() - 1]) in s.net)
  }

  ghost predicate ComingOk(s: System) {
    forall n, m | n in s.nodes && m in s.nodes :: ComingFrom(s, n, m)
  }

  /** The class of every verdict is the worst of what all members entered with. */
  ghost predicate AgreedAt(s: System, v: Code, r: nat) {
    AllBeyond(s, r) && IsWorstOf(CodesAt(s, r), ClassOf(v))
  }

  ghost predicate AllBeyond(s: System, r: nat) {
    forall m | m in s.nodes :: s.nodes[m].Rank() > r
  }

  /** What the members entered barrier r + 1 with. */
  ghost function CodesAt(s: System, r: nat): set<Code>
    requires AllBeyond(s, r)
  {
    set m | m in s.nodes :: s.nodes[m].codes[r]
  }

  ghost predicate VerdictsOk(s: System, n: nat)
    requires n in s.nodes
  {
    forall r | 0 <= r < |s.nodes[n].verdicts| :: AgreedAt(s, s.nodes[n].verdicts[r], r)
  }

  ghost predicate Inv(s: System) {
    && RanksOk(s)
    && NetOk(s)
    && (forall n | n in s.nodes :: GotOk(s, n))
    && ComingOk(s)
    && (forall n | n in s.nodes :: VerdictsOk(s, n))
  }

  /** The mailbox that a node reads holds messages of its own barrier only. */
  lemma SameParityIsSameRank(s: System, m: Msg)
    requires RanksOk(s) && MsgOk(s, m)
    requires s.nodes[m.receiver].Inside() && m.rank % 2 == s.nodes[m.receiver].Rank() % 2
    ensures m.rank == s.nodes[m.receiver].Rank()
  {
    assert PairOk(s.nodes[m.sender], s.nodes[m.receiver]);
  }

  lemma TruthIsKept(s: System, e: Event, t: System, m: Msg)
    requires Next(s, e, t) && Truthful(s, m)
    ensures Truthful(t, m)
  {
  }

  // -------------------------------------------------------------------- Enter

  lemma EnterKeepsRanks(s: System, e: Event, t: System)
    requires RanksOk(s) && e.Enter? && Next(s, e, t)
    ensures RanksOk(t)
  {
    forall a, b | a in t.nodes && b in t.nodes
      ensures PairOk(t.nodes[a], t.nodes[b])
    {
      assert PairOk(s.nodes[a], s.nodes[b]);
    }
  }

  lemma EnterKeepsNet(s: System, e: Event, t: System)
    requires RanksOk(s) && NetOk(s) && (forall n | n in s.nodes :: GotOk(s, n)) && e.Enter? && Next(s, e, t)
    ensures NetOk(t)
  {
    forall m | m in t.net
      ensures MsgOk(t, m)
    {
      if m in s.net {
        assert MsgOk(s, m);
        TruthIsKept(s, e, t, m);
      } else {
        assert GotOk(s, m.receiver);
        assert PairOk(s.nodes[m.receiver], s.nodes[e.node]);
        NewMessageIsOk(s, e, t, m);
      }
    }
  }

  /** Nobody has a message of a barrier that its sender has not entered. */
  lemma UnenteredIsAwaited(s: System, n: nat, m: nat)
    requires n in s.nodes && m in s.nodes && GotOk(s, n)
    requires s.nodes[n].Inside() && s.nodes[m].Rank() < s.nodes[n].Rank()
    ensures m in s.nodes[n].waiting
  {
    var got := s.nodes[n].got;
    forall i | 0 <= i < |got|
      ensures got[i].sender != m
    {
      assert Truthful(s, got[i]);
    }
    assert !HasFrom(got, m);
  }

  lemma NewMessageIsOk(s: System, e: Event, t: System, m: Msg)
    requires e.Enter? && Next(s, e, t)
    requires m in Broadcast(s.nodes.Keys, e.node, s.nodes[e.node].Rank() + 1, e.code)
    requires GotOk(s, m.receiver) && PairOk(s.nodes[m.receiver], s.nodes[e.node])
    ensures MsgOk(t, m)
  {
    if m.receiver != e.node && s.nodes[m.receiver].Inside() && m.rank == s.nodes[m.receiver].Rank() {
      UnenteredIsAwaited(s, m.receiver, e.node);
    }
  }

  lemma GotIsKept(s: System, e: Event, t: System, n: nat)
    requires Next(s, e, t) && n in t.nodes && n != e.node && GotOk(s, n)
    ensures GotOk(t, n)
  {
    forall i | 0 <= i < |t.nodes[n].got|
      ensures Truthful(t, t.nodes[n].got[i])
    {
      TruthIsKept(s, e, t, s.nodes[n].got[i]);
    }
  }

  lemma EnterKeepsComing(s: System, e: Event, t: System, n: nat, m: nat)
    requires e.Enter? && Next(s, e, t) && n in t.nodes && m in t.nodes
    requires ComingFrom(s, n, m) && PairOk(s.nodes[m], s.nodes[n]) && PairOk(s.nodes[n], s.nodes[m])
    ensures ComingFrom(t, n, m)
  {
    assert s.nodes.Keys == t.nodes.Keys;
    if m == e.node {
      assert Msg(n, m, t.nodes[m].Rank(), e.code) in t.net;
    }
  }

  lemma CodesAreKept(s: System, e: Event, t: System, r: nat)
    requires Next(s, e, t) && AllBeyond(s, r)
    ensures AllBeyond(t, r) && CodesAt(t, r) == CodesAt(s, r)
  {
    forall m | m in s.nodes
      ensures m in t.nodes && t.nodes[m].Rank() > r && t.nodes[m].codes[r] == s.nodes[m].codes[r]
    {
    }
    assert t.nodes.Keys == s.nodes.Keys;
  }

  /** What was agreed stays agreed. */
  lemma AgreementIsKept(s: System, e: Event, t: System, v: Code, r: nat)
    requires Next(s, e, t) && AgreedAt(s, v, r)
    ensures AgreedAt(t, v, r)
  {
    CodesAreKept(s, e, t, r);
  }

  lemma VerdictsAreKept(s: System, e: Event, t: System, n: nat)
    requires Next(s, e, t) && n in t.nodes && t.nodes[n].verdicts == s.nodes[n].verdicts
    requires VerdictsOk(s, n)
    ensures VerdictsOk(t, n)
  {
    forall r | 0 <= r < |t.nodes[n].verdicts|
      ensures AgreedAt(t, t.nodes[n].verdicts[r], r)
    {
      AgreementIsKept(s, e, t, s.nodes[n].verdicts[r], r);
    }
  }

  lemma EnterKeepsInv(s: System, e: Event, t: System)
    requires Inv(s) && e.Enter? && Next(s, e, t)
    ensures Inv(t)
  {
    EnterKeepsRanks(s, e, t);
    EnterKeepsNet(s, e, t);
    forall n | n in t.nodes
      ensures GotOk(t, n) && VerdictsOk(t, n)
    {
      assert GotOk(s, n) && VerdictsOk(s, n);
      if n != e.node { GotIsKept(s, e, t, n); }
      VerdictsAreKept(s, e, t, n);
    }
    forall n, m | n in t.nodes && m in t.nodes
      ensures ComingFrom(t, n, m)
    {
      assert ComingFrom(s, n, m);
      assert PairOk(s.nodes[m], s.nodes[n]) && PairOk(s.nodes[n], s.nodes[m]);
      EnterKeepsComing(s, e, t, n, m);
    }
  }

  // ------------------------------------------------------------------ Receive

  lemma ReceiveKeepsRanks(s: System, e: Event, t: System)
    requires RanksOk(s) && e.Receive? && Next(s, e, t)
    ensures RanksOk(t)
  {
    forall a, b | a in t.nodes && b in t.nodes
      ensures PairOk(t.nodes[a], t.nodes[b])
    {
      assert PairOk(s.nodes[a], s.nodes[b]);
    }
  }

  lemma ReceiveKeepsMsg(s: System, e: Event, t: System, m: Msg)
    requires e.Receive? && Next(s, e, t)
    requires MsgOk(s, e.msg) && e.msg.rank == s.nodes[e.node].Rank()
    requires MsgOk(s, m) && m != e.msg
    ensures MsgOk(t, m)
  {
  }

  lemma ReceiverGot(s: System, e: Event, t: System)
    requires e.Receive? && Next(s, e, t)
    requires GotOk(s, e.node) && MsgOk(s, e.msg) && e.msg.rank == s.nodes[e.node].Rank()
    ensures GotOk(t, e.node)
  {
    var before, got := s.nodes[e.node].got, t.nodes[e.node].got;
    assert got == before + [e.msg];
    forall i | 0 <= i < |got|
      ensures Truthful(t, got[i]) && got[i].rank == t.nodes[e.node].Rank()
    {
      assert Truthful(s, got[i]);
      TruthIsKept(s, e, t, got[i]);
    }
    forall m | m in t.nodes && m !in t.nodes[e.node].waiting
      ensures HasFrom(got, m)
    {
      if m == e.msg.sender {
        assert got[|before|].sender == m;
      } else {
        assert HasFrom(before, m);
        var i :| 0 <= i < |before| && before[i].sender == m;
        assert got[i].sender == m;
      }
    }
  }

  lemma ReceiveKeepsComing(s: System, e: Event, t: System, n: nat, m: nat)
    requires e.Receive? && Next(s, e, t) && n in t.nodes && m in t.nodes
    requires e.msg.rank == s.nodes[e.node].Rank()
    requires ComingFrom(s, n, m)
    ensures ComingFrom(t, n, m)
  {
  }

  lemma ReceiveKeepsInv(s: System, e: Event, t: System)
    requires Inv(s) && e.Receive? && Next(s, e, t)
    ensures Inv(t)
  {
    ReceiveKeepsRanks(s, e, t);
    assert MsgOk(s, e.msg);
    SameParityIsSameRank(s, e.msg);
    forall m | m in t.net
      ensures MsgOk(t, m)
    {
      ReceiveKeepsMsg(s, e, t, m);
    }
    forall n | n in t.nodes
      ensures GotOk(t, n) && VerdictsOk(t, n)
    {
      assert GotOk(s, n) && VerdictsOk(s, n);
      if n == e.node { ReceiverGot(s, e, t); } else { GotIsKept(s, e, t, n); }
      VerdictsAreKept(s, e, t, n);
    }
    forall n, m | n in t.nodes && m in t.nodes
      ensures ComingFrom(t, n, m)
    {
      assert ComingFrom(s, n, m);
      ReceiveKeepsComing(s, e, t, n, m);
    }
  }

  // -------------------------------------------------------------------- Leave

  /** Whoever leaves has a message of every member, so all have entered. */
  lemma AllHaveEntered(s: System, n: nat, m: nat) returns (i: nat)
    requires n in s.nodes && m in s.nodes && GotOk(s, n)
    requires s.nodes[n].Inside() && s.nodes[n].waiting == {}
    ensures s.nodes[m].Rank() >= s.nodes[n].Rank()
    ensures i < |s.nodes[n].got| && s.nodes[n].got[i].code == s.nodes[m].codes[s.nodes[n].Rank() - 1]
  {
    var got := s.nodes[n].got;
    assert HasFrom(got, m);
    i :| 0 <= i < |got| && got[i].sender == m;
    assert Truthful(s, got[i]);
  }

  lemma CodeIsReceived(s: System, n: nat, m: nat)
    requires n in s.nodes && m in s.nodes && GotOk(s, n)
    requires s.nodes[n].Inside() && s.nodes[n].waiting == {}
    ensures s.nodes[m].Rank() >= s.nodes[n].Rank()
    ensures s.nodes[m].codes[s.nodes[n].Rank() - 1] in Codes(s.nodes[n].got)
  {
    var i := AllHaveEntered(s, n, m);
    assert Codes(s.nodes[n].got)[i] == s.nodes[m].codes[s.nodes[n].Rank() - 1];
  }

  /** The codes that a leaving node has received are those of all members. */
  lemma ReceivedCodes(s: System, n: nat, r: nat)
    requires n in s.nodes && GotOk(s, n)
    requires s.nodes[n].Inside() && s.nodes[n].waiting == {} && r == s.nodes[n].Rank() - 1
    ensures AllBeyond(s, r) && CodesAt(s, r) == set x | x in Codes(s.nodes[n].got)
  {
    forall m | m in s.nodes
      ensures s.nodes[m].Rank() > r && s.nodes[m].codes[r] in Codes(s.nodes[n].got)
    {
      CodeIsReceived(s, n, m);
    }
    forall x | x in Codes(s.nodes[n].got)
      ensures x in CodesAt(s, r)
    {
      CodeIsEntered(s, n, r, x);
    }
  }

  lemma CodeIsEntered(s: System, n: nat, r: nat, x: Code)
    requires n in s.nodes && GotOk(s, n) && s.nodes[n].Inside() && r == s.nodes[n].Rank() - 1
    requires AllBeyond(s, r) && x in Codes(s.nodes[n].got)
    ensures x in CodesAt(s, r)
  {
    var got := s.nodes[n].got;
    var i :| 0 <= i < |got| && got[i].code == x;
    assert Truthful(s, got[i]);
    assert s.nodes[got[i].sender].codes[r] == x;
  }

  lemma VerdictIsAgreed(s: System, n: nat)
    requires n in s.nodes && GotOk(s, n)
    requires s.nodes[n].Inside() && s.nodes[n].waiting == {}
    ensures AgreedAt(s, Verdict(Messages(Codes(s.nodes[n].got))), s.nodes[n].Rank() - 1)
  {
    ReceivedCodes(s, n, s.nodes[n].Rank() - 1);
    VerdictOfCodes(Codes(s.nodes[n].got));
  }

  lemma LeaveKeepsRanks(s: System, e: Event, t: System)
    requires RanksOk(s) && e.Leave? && Next(s, e, t) && GotOk(s, e.node)
    ensures RanksOk(t)
  {
    forall a, b | a in t.nodes && b in t.nodes
      ensures PairOk(t.nodes[a], t.nodes[b])
    {
      assert PairOk(s.nodes[a], s.nodes[b]);
      var _ := AllHaveEntered(s, e.node, b);
    }
  }

  lemma LeaveKeepsMsg(s: System, e: Event, t: System, m: Msg)
    requires e.Leave? && Next(s, e, t) && MsgOk(s, m) && PairOk(s.nodes[e.node], s.nodes[e.node])
    ensures MsgOk(t, m)
  {
  }

  lemma LeaverGot(s: System, e: Event, t: System)
    requires e.Leave? && Next(s, e, t) && GotOk(s, e.node) && PairOk(s.nodes[e.node], s.nodes[e.node])
    ensures GotOk(t, e.node)
  {
    forall i | 0 <= i < |t.nodes[e.node].got|
      ensures Truthful(t, t.nodes[e.node].got[i])
    {
      TruthIsKept(s, e, t, s.nodes[e.node].got[i]);
    }
  }

  lemma LeaveKeepsComing(s: System, e: Event, t: System, n: nat, m: nat)
    requires e.Leave? && Next(s, e, t) && n in t.nodes && m in t.nodes
    requires ComingFrom(s, n, m)
    ensures ComingFrom(t, n, m)
  {
  }

  lemma LeaverVerdicts(s: System, e: Event, t: System)
    requires e.Leave? && Next(s, e, t) && PairOk(s.nodes[e.node], s.nodes[e.node])
    requires GotOk(s, e.node) && VerdictsOk(s, e.node)
    ensures VerdictsOk(t, e.node)
  {
    var before, v := s.nodes[e.node].verdicts, Verdict(Messages(Codes(s.nodes[e.node].got)));
    VerdictIsAgreed(s, e.node);
    forall r | 0 <= r < |t.nodes[e.node].verdicts|
      ensures AgreedAt(t, t.nodes[e.node].verdicts[r], r)
    {
      AgreementIsKept(s, e, t, if r < |before| then before[r] else v, r);
    }
  }

  lemma LeaveKeepsInv(s: System, e: Event, t: System)
    requires Inv(s) && e.Leave? && Next(s, e, t)
    ensures Inv(t)
  {
    assert GotOk(s, e.node) && PairOk(s.nodes[e.node], s.nodes[e.node]);
    LeaveKeepsRanks(s, e, t);
    forall m | m in t.net
      ensures MsgOk(t, m)
    {
      LeaveKeepsMsg(s, e, t, m);
    }
    forall n | n in t.nodes
      ensures GotOk(t, n) && VerdictsOk(t, n)
    {
      assert GotOk(s, n) && VerdictsOk(s, n);
      if n == e.node {
        LeaverGot(s, e, t);
        LeaverVerdicts(s, e, t);
      } else {
        GotIsKept(s, e, t, n);
        VerdictsAreKept(s, e, t, n);
      }
    }
    forall n, m | n in t.nodes && m in t.nodes
      ensures ComingFrom(t, n, m)
    {
      assert ComingFrom(s, n, m);
      LeaveKeepsComing(s, e, t, n, m);
    }
  }

  // --------------------------------------------------------------------- runs

  lemma StepKeepsInv(s: System, e: Event, t: System)
    requires Inv(s) && Next(s, e, t)
    ensures Inv(t) && t.nodes.Keys == s.nodes.Keys
  {
    match e {
      case Enter(_, _) => EnterKeepsInv(s, e, t);
      case Receive(_, _) => ReceiveKeepsInv(s, e, t);
      case Leave(_) => LeaveKeepsInv(s, e, t);
    }
  }

  lemma InitialInv(s: System)
    requires Initial(s)
    ensures Inv(s)
  {
  }

  lemma {:induction false} RunKeepsInv(run: seq<System>, events: seq<Event>, n: nat)
    requires IsRun(run, events) && n <= |events|
    ensures Inv(run[n]) && run[n].nodes.Keys == run[0].nodes.Keys
  {
    if n == 0 {
      InitialInv(run[0]);
    } else {
      RunKeepsInv(run, events, n - 1);
      StepKeepsInv(run[n - 1], events[n - 1], run[n]);
    }
  }

  /** No member leaves a barrier before all members have entered it. */
  lemma NobodyLeavesEarly(run: seq<System>, events: seq<Event>, n: nat, a: nat, b: nat)
    requires IsRun(run, events) && n <= |events| && a in run[n].nodes && b in run[n].nodes
    ensures |run[n].nodes[a].verdicts| <= run[n].nodes[b].Rank()
  {
    RunKeepsInv(run, events, n);
    assert PairOk(run[n].nodes[a], run[n].nodes[b]);
  }

  /** Although there are only two mailboxes, a member never reads a message of
      another barrier, and reads one message of each member. */
  lemma MailboxesDoNotMix(run: seq<System>, events: seq<Event>, n: nat)
    requires IsRun(run, events) && n < |events| && events[n].Receive?
    ensures events[n].node in run[n].nodes
    ensures events[n].msg.rank == run[n].nodes[events[n].node].Rank()
    ensures events[n].msg.sender in run[n].nodes[events[n].node].waiting
  {
    RunKeepsInv(run, events, n);
    assert Next(run[n], events[n], run[n + 1]);
    SameParityIsSameRank(run[n], events[n].msg);
  }

  /** All members leave a barrier with a verdict of the same class, which is the
      worst class of what the members entered it with. */
  lemma VerdictsAgree(run: seq<System>, events: seq<Event>, n: nat, a: nat, b: nat, r: nat)
    requires IsRun(run, events) && n <= |events| && a in run[n].nodes && b in run[n].nodes
    requires r < |run[n].nodes[a].verdicts| && r < |run[n].nodes[b].verdicts|
    ensures ClassOf(run[n].nodes[a].verdicts[r]) == ClassOf(run[n].nodes[b].verdicts[r])
    ensures AgreedAt(run[n], run[n].nodes[a].verdicts[r], r)
  {
    RunKeepsInv(run, events, n);
    assert VerdictsOk(run[n], a) && VerdictsOk(run[n], b);
    assert AgreedAt(run[n], run[n].nodes[a].verdicts[r], r);
    assert AgreedAt(run[n], run[n].nodes[b].verdicts[r], r);
  }

  ghost predicate Enabled(s: System, e: Event) {
    exists t :: Next(s, e, t)
  }

  /** Nobody is stuck: when all have entered the barrier that member a is in,
      a can leave it, or it can receive from whomever it waits for. */
  lemma BarrierIsLeft(s: System, a: nat, b: nat)
    requires Inv(s) && a in s.nodes && s.nodes[a].Inside()
    requires forall m | m in s.nodes :: s.nodes[m].Rank() >= s.nodes[a].Rank()
    ensures s.nodes[a].waiting == {} ==> Enabled(s, Leave(a))
    ensures b in s.nodes[a].waiting ==> exists m: Msg :: m.sender == b && Enabled(s, Receive(a, m))
  {
    var node := s.nodes[a];
    if node.waiting == {} {
      assert Next(s, Leave(a), System(s.nodes[a := Left(node)], s.net));
    }
    assert GotOk(s, a);
    if b in node.waiting {
      assert ComingFrom(s, a, b);
      var m := Msg(a, b, node.Rank(), s.nodes[b].codes[node.Rank() - 1]);
      assert Next(s, Receive(a, m), System(s.nodes[a := Received(node, m)], s.net - {m}));
    }
  }

  /** The steps member a still has to make to leave the barrier it is in. */
  function Todo(s: System, a: nat): nat
    requires a in s.nodes
  {
    if s.nodes[a].Inside() then |s.nodes[a].waiting| + 1 else 0
  }

  lemma StepCounts(s: System, e: Event, t: System, a: nat)
    requires Inv(s) && Next(s, e, t) && a in s.nodes
    ensures a in t.nodes
    ensures e.node != a ==> Todo(t, a) == Todo(s, a)
    ensures e.node == a && !e.Enter? ==> Todo(t, a) == Todo(s, a) - 1
  {
    if e.Receive? && e.node == a {
      assert MsgOk(s, e.msg);
      SameParityIsSameRank(s, e.msg);
      assert e.msg.sender in s.nodes[a].waiting;
    } else if e.Leave? && e.node == a {
      assert PairOk(s.nodes[a], s.nodes[a]);
    }
  }

  /** The number of steps of member a among events i to j - 1. */
  function Moves(events: seq<Event>, i: nat, j: nat, a: nat): nat
    requires i <= j <= |events|
  {
    if i == j then 0 else Moves(events, i, j - 1, a) + if events[j - 1].node == a then 1 else 0
  }

  /** However the members are scheduled, inside a barrier each makes at most one
      step more than it waits for members. */
  lemma {:induction false} StepsAreBounded(run: seq<System>, events: seq<Event>, i: nat, j: nat, a: nat)
    requires IsRun(run, events) && i <= j <= |events| && a in run[i].nodes
    requires forall k | i <= k < j :: events[k].node == a ==> !events[k].Enter?
    ensures a in run[j].nodes && Moves(events, i, j, a) + Todo(run[j], a) == Todo(run[i], a)
    decreases j
  {
    if i < j {
      StepsAreBounded(run, events, i, j - 1, a);
      RunKeepsInv(run, events, j - 1);
      assert Next(run[j - 1], events[j - 1], run[j]);
      StepCounts(run[j - 1], events[j - 1], run[j], a);
    }
  }

  /** Member a can receive or leave. */
  ghost predicate CanMove(s: System, a: nat) {
    exists e: Event :: !e.Enter? && e.node == a && Enabled(s, e)
  }

  lemma InsideCanMove(s: System, a: nat)
    requires Inv(s) && a in s.nodes && s.nodes[a].Inside()
    requires forall m | m in s.nodes :: s.nodes[m].Rank() >= s.nodes[a].Rank()
    ensures CanMove(s, a)
  {
    var waiting := s.nodes[a].waiting;
    if waiting == {} {
      BarrierIsLeft(s, a, a);
      assert Enabled(s, Leave(a));
    } else {
      var b :| b in waiting;
      BarrierIsLeft(s, a, b);
      var m: Msg :| m.sender == b && Enabled(s, Receive(a, m));
    }
  }

  /** A barrier that all have entered is left by all: a member that can neither
      receive nor leave any more has left it. */
  lemma EveryoneLeaves(run: seq<System>, events: seq<Event>, n: nat, r: nat, a: nat)
    requires IsRun(run, events) && n <= |events| && a in run[n].nodes && !CanMove(run[n], a)
    requires forall b | b in run[n].nodes :: run[n].nodes[b].Rank() >= r
    ensures |run[n].nodes[a].verdicts| >= r
  {
    RunKeepsInv(run, events, n);
    assert PairOk(run[n].nodes[a], run[n].nodes[a]);
    if |run[n].nodes[a].verdicts| < r {
      InsideCanMove(run[n], a);
    }
  }
}
