/**
 The sending side of the multicast protocol (examsgd/network.c): a ring of the
 messages sent last, from which lost messages are sent again. Every send
 succeeds.
 */
module ResendRing {
  import opened Common
  import opened SequenceNumbers
  import ReceiveStream

  datatype Slot<T> = Slot(count: Mseq, body: T)

  /** The position d places before last on a ring of the given size. */
  function Back(last: int, d: nat, size: nat): int {
    if d <= last then last - d else last - d + size
  }

  function Succ(i: int, size: nat): int {
    if i + 1 == size then 0 else i + 1
  }

  /** The ring holds the last messages sent, up to its size, at consecutive
      positions ending at last; the other slots are as they were at the start. */
  ghost predicate Holds<T>(slots: seq<Slot<T>>, last: int, sent: seq<T>) {
    && 1 <= |slots| <= 32767
    && (if |sent| < |slots| then last == |sent| - 1 else 0 <= last < |slots|)
    && (forall d | 0 <= d < Min(|slots|, |sent|) ::
          slots[Back(last, d, |slots|)] == Slot(Wrap(|sent| - d), sent[|sent| - 1 - d]))
    && (forall i | |sent| <= i < |slots| :: slots[i].count == 0)
  }

  /** Message k, counted from 1, is one of the last messages kept. */
  predicate Kept(k: int, sent: nat, size: nat) {
    1 <= k <= sent && sent - k < size
  }

  lemma SendKeepsRing<T>(slots: seq<Slot<T>>, last: int, sent: seq<T>, body: T)
    requires Holds(slots, last, sent)
    ensures 0 <= Succ(last, |slots|) < |slots|
    ensures Holds(slots[Succ(last, |slots|) := Slot(Wrap(|sent| + 1), body)], Succ(last, |slots|), sent + [body])
  {
    var n := Succ(last, |slots|);
    var slots' := slots[n := Slot(Wrap(|sent| + 1), body)];
    var sent' := sent + [body];
    forall d | 0 <= d < Min(|slots|, |sent'|)
      ensures slots'[Back(n, d, |slots|)] == Slot(Wrap(|sent'| - d), sent'[|sent'| - 1 - d])
    {
      if d > 0 {
        assert Back(n, d, |slots|) == Back(last, d - 1, |slots|);
        assert Back(n, d, |slots|) != n;
        assert sent'[|sent'| - 1 - d] == sent[|sent| - 1 - (d - 1)];
      }
    }
  }

  /** A kept message is found at one position of the ring only. */
  lemma FoundOnce<T>(slots: seq<Slot<T>>, last: int, sent: seq<T>, k: nat, i: nat)
    requires Holds(slots, last, sent) && Kept(k, |sent|, |slots|) && i < |slots|
    ensures 0 <= Back(last, |sent| - k, |slots|) < |slots|
    ensures slots[i].count == Wrap(k) <==> i == Back(last, |sent| - k, |slots|)
  {
    var d := if i <= last then last - i else last - i + |slots|;
    assert Back(last, d, |slots|) == i;
    if d < Min(|slots|, |sent|) {
      assert slots[i].count == Wrap(|sent| - d);
      OrderAgrees(|sent| - d, k);
    } else {
      assert |sent| <= i && slots[i].count == 0;
      assert Wrap(k) == k;
    }
  }

  /** The position t places after i. */
  function Forth(i: nat, t: nat, size: nat): nat {
    if i + t < size then i + t else i + t - size
  }

  /** The number of positions from i to last, going forward. */
  function Span(i: nat, last: int, size: nat): int {
    if i <= last then last - i + 1 else last - i + 1 + size
  }

  /** n messages of the stream from message k on, as they go over the wire. */
  function Stretch<T>(sent: seq<T>, k: nat, n: nat): (r: seq<Slot<T>>)
    requires 1 <= k && k - 1 + n <= |sent|
    ensures |r| == n
  {
    seq(n, t requires 0 <= t < n => Slot(Wrap(k + t), sent[k - 1 + t]))
  }

  /** From a kept message on, the ring holds the rest of the stream in order. */
  lemma KeptIsInOrder<T>(slots: seq<Slot<T>>, last: int, sent: seq<T>, k: nat, t: nat)
    requires Holds(slots, last, sent) && Kept(k, |sent|, |slots|) && t <= |sent| - k
    ensures var i := Back(last, |sent| - k, |slots|);
            && 0 <= i < |slots| && Span(i, last, |slots|) == |sent| + 1 - k
            && Forth(i, t, |slots|) < |slots| && slots[Forth(i, t, |slots|)] == Slot(Wrap(k + t), sent[k - 1 + t])
  {
    assert Back(last, |sent| - (k + t), |slots|) == Forth(Back(last, |sent| - k, |slots|), t, |slots|);
  }

  /** A message that has left the ring, or is still to come, is not found. */
  lemma GoneIsNotFound<T>(slots: seq<Slot<T>>, last: int, sent: seq<T>, k: nat, i: nat)
    requires Holds(slots, last, sent) && i < |slots| && 1 <= k && !Kept(k, |sent|, |slots|)
    requires -32767 <= |sent| - k <= 32767
    ensures slots[i].count != Wrap(k)
  {
    var d := if i <= last then last - i else last - i + |slots|;
    assert Back(last, d, |slots|) == i;
    if d < Min(|slots|, |sent|) {
      assert slots[i].count == Wrap(|sent| - d);
      WrapDiffers(|sent| - d, k);
    } else {
      assert |sent| <= i && slots[i].count == 0;
      WrapDiffers(0, k);
    }
  }

  /** A gap that the receiver of the newest message judges recoverable lies
      wholly in the ring of the sender. */
  lemma RecoverableIsKept(sent: nat, last: nat, size: nat, k: nat)
    requires 1 <= size <= 32767 && -32766 <= sent - last <= 32767
    requires Classify(Wrap(sent), Wrap(last), size) == Lost
    requires last < k <= sent
    ensures Kept(k, sent, size)
  {
    ClassesAreRanges(sent, last, size);
  }

  class Sender<T> {
    const buffer: array<Slot<T>>   // sentbuf
    var last: int                  // last_sent_index
    var counter: Mseq              // mcastcount
    ghost var sent: seq<T>

    ghost predicate Valid()
      reads this, buffer
    {
      Holds(buffer[..], last, sent) && counter == Wrap(|sent|)
    }

    constructor (size: nat, zero: T)
      requires 1 <= size <= 32767
      ensures Valid() && sent == [] && buffer.Length == size && fresh(buffer)
    {
      buffer := new Slot<T>[size](_ => Slot(0, zero));
      last := -1;
      counter := 0;
      sent := [];
    }

    /** network_send when the socket takes the message. */
    method Send(body: T)
      requires Valid()
      modifies this, buffer
      ensures Valid() && sent == old(sent) + [body]
    {
      SendKeepsRing(buffer[..], last, sent, body);
      WrapSum(|sent|, 1);
      counter := Wrap(counter + 1);
      last := Succ(last, buffer.Length);
      ghost var slots := buffer[..][last := Slot(counter, body)];
      buffer[last] := Slot(counter, body);
      assert buffer[..] == slots;
      sent := sent + [body];
    }

    /** The search of retransmit. */
    method Find(count: Mseq) returns (i: nat)
      ensures i <= buffer.Length
      ensures i < buffer.Length ==> buffer[i].count == count
      ensures forall j | 0 <= j < i :: buffer[j].count != count
    {
      i := 0;
      while i < buffer.Length
        invariant i <= buffer.Length
        invariant forall j | 0 <= j < i :: buffer[j].count != count
      {
        if buffer[i].count == count {
          return;
        }
        i := i + 1;
      }
    }

    /** The loop of retransmit from position i: the slots up to the newest are
        sent again, unless an older request comes first, which happens after
        preemptAt turns. */
    method ResendFrom(i: nat, preemptAt: nat) returns (resent: seq<Slot<T>>)
      requires i < buffer.Length && -1 <= last < buffer.Length
      ensures |resent| == Min(preemptAt, Span(i, last, buffer.Length))
      ensures forall t | 0 <= t < |resent| :: resent[t] == buffer[Forth(i, t, buffer.Length)]
    {
      resent := [];
      var p := i;
      while |resent| != preemptAt
        invariant |resent| < Span(i, last, buffer.Length) && |resent| <= preemptAt
        invariant p == Forth(i, |resent|, buffer.Length)
        invariant forall t | 0 <= t < |resent| :: resent[t] == buffer[Forth(i, t, buffer.Length)]
        decreases Span(i, last, buffer.Length) - |resent|
      {
        resent := resent + [buffer[p]];
        p := Succ(p, buffer.Length);
        if p == Succ(last, buffer.Length) {
          return;
        }
      }
    }

    /** retransmit. A message that is not in the ring is not sent again. For
        message k in the ring, asked for by its number on the wire, the messages
        from k on are sent again once each and in order, up to the newest unless
        an older request comes first. */
    method Retransmit(count: Mseq, preemptAt: nat, ghost k: nat) returns (found: bool, resent: seq<Slot<T>>)
      requires Valid()
      ensures found <==> exists i | 0 <= i < buffer.Length :: buffer[i].count == count
      ensures !found ==> resent == []
      ensures Kept(k, |sent|, buffer.Length) && count == Wrap(k) ==>
                found && resent == Stretch(sent, k, Min(preemptAt, |sent| + 1 - k))
    {
      var i := Find(count);
      found := i < buffer.Length;
      if Kept(k, |sent|, buffer.Length) && count == Wrap(k) {
        StartsAt(k, count, i);
      }
      if !found {
        return found, [];
      }
      resent := ResendFrom(i, preemptAt);
      if Kept(k, |sent|, buffer.Length) && count == Wrap(k) {
        IsStream(k, i, preemptAt, resent);
      }
    }

    lemma IsStream(k: nat, i: nat, preemptAt: nat, resent: seq<Slot<T>>)
      requires Valid() && Kept(k, |sent|, buffer.Length)
      requires i == Back(last, |sent| - k, buffer.Length) && i < buffer.Length
      requires |resent| == Min(preemptAt, Span(i, last, buffer.Length))
      requires forall t | 0 <= t < |resent| :: resent[t] == buffer[Forth(i, t, buffer.Length)]
      ensures resent == Stretch(sent, k, Min(preemptAt, |sent| + 1 - k))
    {
      KeptIsInOrder(buffer[..], last, sent, k, 0);
      forall t | 0 <= t < |resent| ensures resent[t] == Slot(Wrap(k + t), sent[k - 1 + t]) {
        KeptIsInOrder(buffer[..], last, sent, k, t);
      }
    }

    /** A number that is in the ring is the one of a kept message. */
    lemma FoundIsKept(k: nat)
      requires Valid() && 1 <= k && -32767 <= |sent| - k <= 32767
      requires exists i | 0 <= i < buffer.Length :: buffer[i].count == Wrap(k)
      ensures Kept(k, |sent|, buffer.Length)
    {
      var i :| 0 <= i < buffer.Length && buffer[i].count == Wrap(k);
      assert buffer[..][i].count == Wrap(k);
      if !Kept(k, |sent|, buffer.Length) {
        GoneIsNotFound(buffer[..], last, sent, k, i);
      }
    }

    /** The search for a kept message finds its position. */
    lemma StartsAt(k: nat, count: Mseq, i: nat)
      requires Valid() && Kept(k, |sent|, buffer.Length) && count == Wrap(k) && i <= buffer.Length
      requires i < buffer.Length ==> buffer[i].count == count
      requires forall j | 0 <= j < i :: buffer[j].count != count
      ensures i == Back(last, |sent| - k, buffer.Length) && i < buffer.Length
    {
      var at := Back(last, |sent| - k, buffer.Length);
      FoundOnce(buffer[..], last, sent, k, at);
      assert buffer[..][at].count == count;
      FoundOnce(buffer[..], last, sent, k, i);
    }
  }

  // ------------------------------------------------------------ repairing a gap

  /** The receiver, at message n, gets a slot. */
  method TakeSlot<T>(s: ReceiveStream.Source, slot: Slot<T>, ghost n: nat) returns (t: ReceiveStream.Source, taken: bool)
    requires s.count == Wrap(n)
    ensures slot.count == Wrap(n + 1) ==> taken && t.count == Wrap(n + 1)
  {
    ReceiveStream.CheckTakesNext(s, n, n + 1, true);
    var (u, outcome) := ReceiveStream.CheckSeq(s, slot.count, true);
    t, taken := u, outcome == ReceiveStream.Taken;
  }

  /** A receiver at message n that gets the messages after it in order takes
      every one of them. */
  method TakeStretch<T>(s: ReceiveStream.Source, slots: seq<Slot<T>>, ghost sent: seq<T>, ghost n: nat)
    returns (t: ReceiveStream.Source, bodies: seq<T>)
    requires s.count == Wrap(n) && n + |slots| <= |sent| && slots == Stretch(sent, n + 1, |slots|)
    ensures t.count == Wrap(n + |slots|) && bodies == sent[n..n + |slots|]
  {
    t, bodies := s, [];
    for i := 0 to |slots|
      invariant t.count == Wrap(n + i) && bodies == sent[n..n + i]
    {
      assert slots[i] == Slot(Wrap(n + i + 1), sent[n + i]);
      var taken;
      t, taken := TakeSlot(t, slots[i], n + i);
      if taken {
        bodies := bodies + [slots[i].body];
      }
    }
  }

  /** What is asked for on the newest message is kept by the sender. */
  lemma AskedIsKept(s: ReceiveStream.Source, n: nat, newest: nat)
    requires s.count == Wrap(n) && -32766 <= newest - n <= 32767
    requires ReceiveStream.CheckSeq(s, Wrap(newest), true).1.Requested?
    ensures n < newest && Kept(n + 1, newest, ReceiveStream.RING)
    ensures ReceiveStream.CheckSeq(s, Wrap(newest), true).1.missed == Wrap(n + 1)
    ensures ReceiveStream.CheckSeq(s, Wrap(newest), true).0.count == Wrap(n)
  {
    ClassesAreRanges(newest, n, ReceiveStream.RING);
    WrapSum(n, 1);
  }

  /** b carries the number of the newest message, as that message or as a ping. */
  predicate TellsNewest(b: ReceiveStream.Body, newest: Mseq) {
    match b
    case PingBody(last) => last == newest
    case DataBody(count, _) => count == newest
    case _ => false
  }

  lemma AsksForNext(s: ReceiveStream.Source, b: ReceiveStream.Body, n: nat, newest: nat)
    requires s.count == Wrap(n) && -32766 <= newest - n <= 32767 && TellsNewest(b, Wrap(newest))
    requires ReceiveStream.ReceiveOpen(s, b).1.Requested?
    ensures ReceiveStream.ReceiveOpen(s, b).1.missed == Wrap(n + 1)
    ensures ReceiveStream.ReceiveOpen(s, b).0.count == Wrap(n)
    ensures b.DataBody? ==> Kept(n + 1, newest, ReceiveStream.RING)
  {
    WrapSum(n, 1);
    if b.DataBody? {
      ClassesAreRanges(newest, n, ReceiveStream.RING);
    }
  }

  /** End to end: a receiver at message n that asks for a retransmission on the
      newest message, or on a ping that tells its number, gets from the ring, and
      takes, every message after n, if and only if the ring holds the next one.
      On a message that is always so. */
  method RepairGap<T>(sender: Sender<T>, s: ReceiveStream.Source, b: ReceiveStream.Body, ghost n: nat)
    returns (t: ReceiveStream.Source, bodies: seq<T>, found: bool)
    requires sender.Valid() && sender.buffer.Length == ReceiveStream.RING
    requires s.count == Wrap(n) && -32766 <= |sender.sent| - n <= 32767
    requires TellsNewest(b, sender.counter) && ReceiveStream.ReceiveOpen(s, b).1.Requested?
    ensures found <==> 0 < |sender.sent| - n <= ReceiveStream.RING
    ensures b.DataBody? ==> found
    ensures found ==> t.count == Wrap(|sender.sent|) && bodies == sender.sent[n..]
    ensures !found ==> t.count == s.count && bodies == []
  {
    ghost var newest := |sender.sent|;
    AsksForNext(s, b, n, newest);
    var (u, asked) := ReceiveStream.ReceiveOpen(s, b);
    var resent;
    found, resent := sender.Retransmit(asked.missed, sender.buffer.Length, n + 1);
    if found {
      sender.FoundIsKept(n + 1);
      t, bodies := TakeStretch(u, resent, sender.sent, n);
    } else {
      t, bodies := u, [];
    }
  }
}
