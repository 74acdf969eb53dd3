/**
 What one node makes of the messages of a barrier (admind/src/rpc.c). Codes are
 zero or negated error numbers, as the program exchanges them.
 */
module BarrierVerdict {

  type Code = x: int | x <= 0

  const SUCCESS: Code := 0
  const NODE_DOWN: Code := -0x104
  const NOTHING_TO_DO: Code := -0x1a5

  const WARNINGS: set<int> := {0x105, 0x1aa, 0x178, 0x156, 0x16f, 0x1c0, 0x1e6, 0x1f0, 0x1c2, 0x1cb}
  const INFOS: set<int> := {0x1d4, 0x1d3, 0x1ce, 0x1cf, 0x1d0, 0x1d1}

  datatype ErrorType = TypeSuccess | TypeWarning | TypeInfo | TypeError

  /** get_error_type, of a number that is not negative. */
  function TypeOf(err: nat): ErrorType {
    if err == 0 - SUCCESS || err == 0 - NOTHING_TO_DO then TypeSuccess
    else if err in WARNINGS then TypeWarning
    else if err in INFOS then TypeInfo
    else TypeError
  }

  /** The classes a caller distinguishes: all well, something to report, an
      error; the worst of two classes. */
  datatype Class = Fine | Noted | Failed

  function ClassOf(c: Code): Class {
    match TypeOf(0 - c)
    case TypeSuccess => Fine
    case TypeWarning => Noted
    case TypeInfo => Noted
    case TypeError => Failed
  }

  /** The three classes, by the numbers: no number is in two lists. */
  lemma ClassesAreLists(c: Code)
    ensures ClassOf(c) == Fine <==> c == SUCCESS || c == NOTHING_TO_DO
    ensures ClassOf(c) == Noted <==> 0 - c in WARNINGS + INFOS
    ensures WARNINGS !! INFOS && 0 - SUCCESS !in WARNINGS + INFOS && 0 - NOTHING_TO_DO !in WARNINGS + INFOS
  {
  }

  function Worse(a: Class, b: Class): Class {
    if a == Failed || b == Failed then Failed
    else if a == Noted || b == Noted then Noted
    else Fine
  }

  /** A message with the code of its sender, or the news that a node is down. */
  datatype Arrival = Message(code: Code) | Down

  function ArrivalClass(a: Arrival): Class {
    if a.Down? then Failed else ClassOf(a.code)
  }

  /** One turn of the loop of admwrk_barrier_msg on the result so far. */
  function Absorb(ret: Code, a: Arrival): Code {
    if a.Down? then NODE_DOWN
    else if ret == NODE_DOWN || a.code == NOTHING_TO_DO || a.code == SUCCESS then ret
    else if TypeOf(0 - a.code) == TypeError || ret == SUCCESS then a.code
    else ret
  }

  function Verdict(arrivals: seq<Arrival>): Code {
    if arrivals == [] then SUCCESS else Absorb(Verdict(arrivals[..|arrivals| - 1]), arrivals[|arrivals| - 1])
  }

  /** The worst class among the arrivals; Fine when there are none. */
  ghost predicate IsWorst(arrivals: seq<Arrival>, c: Class) {
    && (c == Failed <==> exists i | 0 <= i < |arrivals| :: ArrivalClass(arrivals[i]) == Failed)
    && (c == Fine <==> forall i | 0 <= i < |arrivals| :: ArrivalClass(arrivals[i]) == Fine)
  }

  lemma WorstOfOneMore(arrivals: seq<Arrival>, c: Class, a: Arrival)
    requires IsWorst(arrivals, c)
    ensures IsWorst(arrivals + [a], Worse(c, ArrivalClass(a)))
  {
    var more := arrivals + [a];
    assert more[|arrivals|] == a;
    forall i | 0 <= i < |arrivals|
      ensures more[i] == arrivals[i]
    {
    }
    if c == Failed {
      var i :| 0 <= i < |arrivals| && ArrivalClass(arrivals[i]) == Failed;
      assert ArrivalClass(more[i]) == Failed;
    } else if c != Fine {
      var i :| 0 <= i < |arrivals| && ArrivalClass(arrivals[i]) != Fine;
      assert ArrivalClass(more[i]) != Fine;
    }
  }

  /** The class of the verdict is the worst class among the arrivals. A verdict
      of success is SUCCESS itself, never NOTHING_TO_DO. */
  lemma {:induction false} VerdictIsWorst(arrivals: seq<Arrival>)
    ensures IsWorst(arrivals, ClassOf(Verdict(arrivals)))
    ensures Verdict(arrivals) != NOTHING_TO_DO
  {
    if arrivals != [] {
      var rest, a := arrivals[..|arrivals| - 1], arrivals[|arrivals| - 1];
      VerdictIsWorst(rest);
      assert rest + [a] == arrivals;
      WorstOfOneMore(rest, ClassOf(Verdict(rest)), a);
    }
  }

  predicate IsDown(a: Arrival) {
    a.Down? || a.code == NODE_DOWN
  }

  /** The verdict is NODE_DOWN exactly when a node was found down, here or by a
      member; otherwise it is success or a code that was received. */
  lemma {:induction false} VerdictIsReceived(arrivals: seq<Arrival>)
    ensures Verdict(arrivals) == NODE_DOWN <==> exists i | 0 <= i < |arrivals| :: IsDown(arrivals[i])
    ensures Verdict(arrivals) in {SUCCESS, NODE_DOWN} || Message(Verdict(arrivals)) in arrivals
  {
    if arrivals != [] {
      var rest, a := arrivals[..|arrivals| - 1], arrivals[|arrivals| - 1];
      VerdictIsReceived(rest);
      assert rest + [a] == arrivals;
      assert (exists i | 0 <= i < |arrivals| :: IsDown(arrivals[i])) <==>
             (exists i | 0 <= i < |rest| :: IsDown(rest[i])) || IsDown(a);
    }
  }

  /** Among errors the last one to arrive is the verdict. */
  lemma {:induction false} LastErrorWins(arrivals: seq<Arrival>, i: nat)
    requires forall j | 0 <= j < |arrivals| :: !IsDown(arrivals[j])
    requires i < |arrivals| && ArrivalClass(arrivals[i]) == Failed
    requires forall j | i < j < |arrivals| :: ArrivalClass(arrivals[j]) != Failed
    ensures arrivals[i].Message? && Verdict(arrivals) == arrivals[i].code
  {
    var rest := arrivals[..|arrivals| - 1];
    VerdictIsReceived(rest);
    if i < |arrivals| - 1 {
      LastErrorWins(rest, i);
    }
  }

  /** Without errors the first warning or information is the verdict. */
  lemma {:induction false} FirstNoteWins(arrivals: seq<Arrival>, i: nat)
    requires forall j | 0 <= j < |arrivals| :: ArrivalClass(arrivals[j]) != Failed
    requires i < |arrivals| && ArrivalClass(arrivals[i]) == Noted
    requires forall j | 0 <= j < i :: ArrivalClass(arrivals[j]) == Fine
    ensures arrivals[i].Message? && Verdict(arrivals) == arrivals[i].code
  {
    var rest := arrivals[..|arrivals| - 1];
    if i < |arrivals| - 1 {
      FirstNoteWins(rest, i);
    } else {
      VerdictIsWorst(rest);
    }
  }

  /** The order of arrival does not change the class of the verdict. */
  lemma OrderDoesNotMatter(a: seq<Arrival>, b: seq<Arrival>)
    requires multiset(a) == multiset(b)
    ensures ClassOf(Verdict(a)) == ClassOf(Verdict(b))
  {
    VerdictIsWorst(a);
    VerdictIsWorst(b);
    SameMembers(a, b);
    SameMembers(b, a);
  }

  lemma SameMembers(a: seq<Arrival>, b: seq<Arrival>)
    requires multiset(a) == multiset(b)
    ensures forall i | 0 <= i < |a| :: exists j | 0 <= j < |b| :: b[j] == a[i]
  {
    forall i | 0 <= i < |a|
      ensures exists j | 0 <= j < |b| :: b[j] == a[i]
    {
      assert a[i] in multiset(a) && a[i] in multiset(b);
      assert a[i] in b;
    }
  }

  /** The worst class among codes; Fine when there are none. */
  ghost predicate IsWorstOf(codes: set<Code>, c: Class) {
    && (c == Failed <==> exists x | x in codes :: ClassOf(x) == Failed)
    && (c == Fine <==> forall x | x in codes :: ClassOf(x) == Fine)
  }

  function Messages(codes: seq<Code>): seq<Arrival> {
    seq(|codes|, i requires 0 <= i < |codes| => Message(codes[i]))
  }

  lemma VerdictOfCodes(codes: seq<Code>)
    ensures IsWorstOf((set x | x in codes), ClassOf(Verdict(Messages(codes))))
  {
    var arrivals := Messages(codes);
    VerdictIsWorst(arrivals);
    forall x | x in codes
      ensures exists i | 0 <= i < |arrivals| :: ArrivalClass(arrivals[i]) == ClassOf(x)
    {
      var i :| 0 <= i < |codes| && codes[i] == x;
      assert ArrivalClass(arrivals[i]) == ClassOf(x);
    }
    forall i | 0 <= i < |arrivals|
      ensures codes[i] in codes && ArrivalClass(arrivals[i]) == ClassOf(codes[i])
    {
    }
  }

  /** An arrival and the node it is about. */
  datatype From = From(node: nat, arrival: Arrival)

  function Arrivals(fs: seq<From>): seq<Arrival> {
    seq(|fs|, i requires 0 <= i < |fs| => fs[i].arrival)
  }

  function Senders(fs: seq<From>, n: nat): set<nat>
    requires n <= |fs|
  {
    set i | 0 <= i < n :: fs[i].node
  }

  lemma SendersGrow(fs: seq<From>, n: nat)
    requires n < |fs|
    ensures Senders(fs, n + 1) == Senders(fs, n) + {fs[n].node}
  {
  }

  lemma VerdictGrows(fs: seq<From>, n: nat)
    requires n < |fs|
    ensures Verdict(Arrivals(fs[..n + 1])) == Absorb(Verdict(Arrivals(fs[..n])), fs[n].arrival)
  {
    var done := Arrivals(fs[..n]);
    assert Arrivals(fs[..n + 1]) == done + [fs[n].arrival];
    assert (done + [fs[n].arrival])[..n] == done;
  }

  /** The loop of admwrk_barrier_msg over admwrk_get_msg: arrivals are taken
      until no node is waited for. Arrivals that never come leave the loop
      waiting, with the nodes in waiting. */
  method Collect(nodes: set<nat>, arrivals: seq<From>) returns (ret: Code, taken: nat, waiting: set<nat>)
    ensures taken <= |arrivals|
    ensures ret == Verdict(Arrivals(arrivals[..taken]))
    ensures waiting == nodes - Senders(arrivals, taken)
    ensures waiting == {} || taken == |arrivals|
    ensures forall k | 0 <= k < taken :: nodes - Senders(arrivals, k) != {}
  {
    ret, taken, waiting := SUCCESS, 0, nodes;
    while waiting != {} && taken < |arrivals|
      invariant taken <= |arrivals|
      invariant ret == Verdict(Arrivals(arrivals[..taken]))
      invariant waiting == nodes - Senders(arrivals, taken)
      invariant forall k | 0 <= k < taken :: nodes - Senders(arrivals, k) != {}
      decreases |arrivals| - taken
    {
      var from := arrivals[taken];
      waiting := waiting - {from.node};
      if from.arrival.Down? {
        ret := NODE_DOWN;
      } else {
        var err: int := from.arrival.code;
        if ret != NODE_DOWN && err != NOTHING_TO_DO && err != SUCCESS {
          if TypeOf(0 - err) == TypeError || ret == SUCCESS {
            ret := err;
          }
        }
      }
      SendersGrow(arrivals, taken);
      VerdictGrows(arrivals, taken);
      taken := taken + 1;
    }
  }
}
