/**
 What one supervisor does over any sequence of pings sent and received
 (csupd/src/exa_csupd.c): which nodes it sees, when it announces a change, and
 which clique it holds. Other nodes may restart at any time.
 */
module SupervisorPaths {
  import opened Common
  import opened Clique
  import opened SupView
  import opened Supervision

  /** What happens to one supervisor. */
  datatype Step = Sent(period: int, timeout: int) | Got(ping: Ping, timeout: int)

  ghost predicate Makes(s: Supervisor, step: Step, t: Supervisor) {
    match step
    case Sent(period, timeout) => Sound(s) && t == PostPing(PrePing(s, period, timeout))
    case Got(p, timeout) =>
      CheckPing(p) && p.sender < MAX_NODES && s.view.state != Unknown && t == ProcessPing(s, p, timeout)
  }

  ghost predicate Path(s: Supervisor, steps: seq<Step>, t: Supervisor)
    decreases |steps|
  {
    if steps == [] then t == s else exists u :: Makes(s, steps[0], u) && Path(u, steps[1..], t)
  }

  lemma PathGrows(s: Supervisor, step: Step, u: Supervisor, steps: seq<Step>, t: Supervisor)
    requires Makes(s, step, u) && Path(u, steps, t)
    ensures Path(s, [step] + steps, t)
  {
    assert ([step] + steps)[1..] == steps;
  }

  lemma MakesKeepsInv(s: Supervisor, step: Step, t: Supervisor)
    requires Inv(s) && Makes(s, step, t)
    ensures Inv(t)
  {
    match step {
      case Sent(period, timeout) => SendKeepsInv(s, period, timeout);
      case Got(p, timeout) => ReceiveKeepsInv(s, p, timeout);
    }
  }

  /** Whatever a supervisor sends and gets, it keeps the invariant. */
  lemma {:induction false} PathKeepsInv(s: Supervisor, steps: seq<Step>, t: Supervisor)
    requires Inv(s) && Path(s, steps, t)
    ensures Inv(t)
    decreases |steps|
  {
    if steps != [] {
      var u :| Makes(s, steps[0], u) && Path(u, steps[1..], t);
      MakesKeepsInv(s, steps[0], u);
      PathKeepsInv(u, steps[1..], t);
    }
  }

  /** The states that a path goes through. */
  ghost predicate IsPath(states: seq<Supervisor>, steps: seq<Step>) {
    |states| == |steps| + 1 && forall i | 0 <= i < |steps| :: Makes(states[i], steps[i], states[i + 1])
  }

  lemma {:induction false} StatesOf(s: Supervisor, steps: seq<Step>, t: Supervisor) returns (states: seq<Supervisor>)
    requires Path(s, steps, t)
    ensures IsPath(states, steps) && states[0] == s && states[|steps|] == t
    decreases |steps|
  {
    if steps == [] {
      states := [s];
    } else {
      var u :| Makes(s, steps[0], u) && Path(u, steps[1..], t);
      var rest := StatesOf(u, steps[1..], t);
      states := [s] + rest;
      forall i | 0 <= i < |steps| ensures Makes(states[i], steps[i], states[i + 1]) {
        if i > 0 { assert Makes(rest[i - 1], steps[1..][i - 1], rest[i]); }
      }
    }
  }

  // ---------------------------------------------------------- which nodes are seen

  predicate IsFrom(step: Step, n: nat) {
    step.Got? && step.ping.sender == n
  }

  predicate Heard(steps: seq<Step>, n: nat) {
    exists i | 0 <= i < |steps| :: IsFrom(steps[i], n)
  }

  /** The time since the last ping of n, in periods that went by. */
  function SinceHeard(steps: seq<Step>, n: nat): int {
    if steps == [] then 0
    else
      var before := SinceHeard(steps[..|steps| - 1], n);
      match steps[|steps| - 1]
      case Sent(period, _) => before + period
      case Got(p, _) => if p.sender == n then 0 else before
  }

  /** The incarnation that the last ping of n told, 0 when there is none. */
  function LastIncarnation(steps: seq<Step>, n: nat): nat {
    if steps == [] then 0
    else if IsFrom(steps[|steps| - 1], n) then steps[|steps| - 1].ping.incarnation
    else LastIncarnation(steps[..|steps| - 1], n)
  }

  /** Node n is watched from its first ping until it is silent for the timeout,
      or comes back in another incarnation while it is watched. */
  predicate Watched(steps: seq<Step>, n: nat, timeout: int) {
    if steps == [] then false
    else
      var before := Watched(steps[..|steps| - 1], n, timeout);
      if IsFrom(steps[|steps| - 1], n) then
        !(before && LastIncarnation(steps[..|steps| - 1], n) != steps[|steps| - 1].ping.incarnation)
      else before && SinceHeard(steps, n) < timeout
  }

  /** The program runs with one timeout, and time does not go back. */
  predicate Regular(steps: seq<Step>, timeout: int) {
    && timeout > 0
    && (forall i | 0 <= i < |steps| :: steps[i].timeout == timeout)
    && (forall i | 0 <= i < |steps| :: steps[i].Sent? ==> steps[i].period >= 0)
  }

  /** What s knows of node n after the steps. */
  predicate Knows(s: Supervisor, steps: seq<Step>, n: nat, timeout: int) {
    && (n in s.view.nodesSeen <==> Watched(steps, n, timeout))
    && (n in s.others <==> Heard(steps, n))
    && (n in s.others ==> s.others[n].incarnation == LastIncarnation(steps, n))
    && (n in s.view.nodesSeen ==> n in s.others && s.others[n].lastSeen == SinceHeard(steps, n))
  }

  lemma SentSees(s: Supervisor, period: int, timeout: int, t: Supervisor, n: nat)
    requires Sound(s) && Makes(s, Sent(period, timeout), t) && n != s.self
    ensures t.self == s.self
    ensures n in t.others <==> n in s.others
    ensures n in s.others ==> t.others[n].incarnation == s.others[n].incarnation
    ensures n in t.view.nodesSeen <==> n in s.view.nodesSeen && s.others[n].lastSeen + period < timeout
    ensures n in t.view.nodesSeen ==> t.others[n].lastSeen == s.others[n].lastSeen + period
  {
    SendKeepsRest(s, period, timeout);
    assert t.others == Aged(s, period, timeout).others;
  }

  /** What a ping that is got leaves alone once its sender has been noted. */
  lemma GotIsNoted(s: Supervisor, p: Ping, timeout: int, t: Supervisor)
    requires Makes(s, Got(p, timeout), t)
    ensures var u := if p.sender == s.self then s else UpdateNodeInfo(s, p, timeout);
            && t == u.(view := t.view, acceptedClique := t.acceptedClique,
                       accepts := t.accepts, delivered := t.delivered)
            && t.view == u.view.(state := t.view.state, accepted := t.view.accepted, committed := t.view.committed)
            && t.view.state != Unknown
            && u.view == s.view.(nodesSeen := u.view.nodesSeen, numSeen := u.view.numSeen)
            && u.self == s.self
  {
    if p.sender == s.self {
      ReactKeepsRest(s, p);
    } else {
      NotedKeepsRest(s, p, timeout);
      ReactKeepsRest(UpdateNodeInfo(s, p, timeout), p);
    }
  }

  lemma NotedKeepsRest(s: Supervisor, p: Ping, timeout: int)
    requires p.sender != s.self
    ensures var u := UpdateNodeInfo(s, p, timeout);
            && u.view == s.view.(nodesSeen := u.view.nodesSeen, numSeen := u.view.numSeen)
            && u == s.(view := u.view, others := u.others, selfChanged := u.selfChanged, otherChanged := u.otherChanged)
  {
  }

  lemma ReactKeepsRest(u: Supervisor, p: Ping)
    requires u.view.state != Unknown
    ensures var t := React(u, p);
            && t == u.(view := t.view, acceptedClique := t.acceptedClique,
                       accepts := t.accepts, delivered := t.delivered)
            && t.view == u.view.(state := t.view.state, accepted := t.view.accepted, committed := t.view.committed)
            && t.view.state != Unknown
  {
  }

  lemma GotSees(s: Supervisor, p: Ping, timeout: int, t: Supervisor, n: nat)
    requires Sound(s) && Makes(s, Got(p, timeout), t) && n != s.self
    ensures t.self == s.self
    ensures n in t.others <==> n in s.others || n == p.sender
    ensures n != p.sender ==> (n in t.view.nodesSeen <==> n in s.view.nodesSeen)
    ensures n != p.sender && n in s.others ==> t.others[n] == s.others[n]
    ensures n == p.sender ==> t.others[n].incarnation == p.incarnation
    ensures n == p.sender ==> (n in t.view.nodesSeen <==>
              !(n in s.view.nodesSeen && s.others[n].incarnation != p.incarnation))
    ensures n == p.sender && n in t.view.nodesSeen ==> t.others[n].lastSeen == 0
  {
    GotIsNoted(s, p, timeout, t);
    if p.sender != s.self {
      NotedSees(s, p, timeout, n);
    }
  }

  lemma NotedSees(s: Supervisor, p: Ping, timeout: int, n: nat)
    requires Sound(s) && p.sender != s.self && n != s.self
    ensures var u := UpdateNodeInfo(s, p, timeout);
            && (n in u.others <==> n in s.others || n == p.sender)
            && (n != p.sender ==> (n in u.view.nodesSeen <==> n in s.view.nodesSeen))
            && (n != p.sender && n in s.others ==> u.others[n] == s.others[n])
            && (n == p.sender ==> u.others[n].incarnation == p.incarnation)
            && (n == p.sender ==> (n in u.view.nodesSeen <==>
                  !(n in s.view.nodesSeen && s.others[n].incarnation != p.incarnation)))
            && (n == p.sender && n in u.view.nodesSeen ==> u.others[n].lastSeen == 0)
  {
  }

  lemma HeardSplits(steps: seq<Step>, n: nat)
    requires steps != []
    ensures Heard(steps, n) <==> Heard(steps[..|steps| - 1], n) || IsFrom(steps[|steps| - 1], n)
  {
    if Heard(steps[..|steps| - 1], n) {
      var i :| 0 <= i < |steps| - 1 && IsFrom(steps[..|steps| - 1][i], n);
      assert IsFrom(steps[i], n);
    }
  }

  lemma SentKnows(u: Supervisor, steps: seq<Step>, t: Supervisor, n: nat, timeout: int)
    requires steps != [] && Regular(steps, timeout) && steps[|steps| - 1].Sent?
    requires Sound(u) && n != u.self && Knows(u, steps[..|steps| - 1], n, timeout) && Makes(u, steps[|steps| - 1], t)
    ensures t.self == u.self && Knows(t, steps, n, timeout)
  {
    HeardSplits(steps, n);
    SentSees(u, steps[|steps| - 1].period, timeout, t, n);
  }

  lemma GotKnows(u: Supervisor, steps: seq<Step>, t: Supervisor, n: nat, timeout: int)
    requires steps != [] && Regular(steps, timeout) && steps[|steps| - 1].Got?
    requires Sound(u) && n != u.self && Knows(u, steps[..|steps| - 1], n, timeout) && Makes(u, steps[|steps| - 1], t)
    requires Watched(steps[..|steps| - 1], n, timeout) ==> SinceHeard(steps[..|steps| - 1], n) < timeout
    ensures t.self == u.self && Knows(t, steps, n, timeout)
  {
    HeardSplits(steps, n);
    GotSees(u, steps[|steps| - 1].ping, timeout, t, n);
  }

  /** What holds of s after the steps, for node n. */
  ghost predicate Follows(s: Supervisor, self: nat, steps: seq<Step>, n: nat, timeout: int) {
    && s.self == self && Inv(s) && Knows(s, steps, n, timeout)
    && (Watched(steps, n, timeout) ==> SinceHeard(steps, n) < timeout)
  }

  lemma StepFollows(u: Supervisor, self: nat, steps: seq<Step>, t: Supervisor, n: nat, timeout: int)
    requires steps != [] && Regular(steps, timeout) && n != self
    requires Follows(u, self, steps[..|steps| - 1], n, timeout) && Makes(u, steps[|steps| - 1], t)
    ensures Follows(t, self, steps, n, timeout)
  {
    MakesKeepsInv(u, steps[|steps| - 1], t);
    if steps[|steps| - 1].Sent? {
      SentKnows(u, steps, t, n, timeout);
    } else {
      GotKnows(u, steps, t, n, timeout);
    }
  }

  lemma StartFollows(self: nat, incarnation: nat, n: nat, timeout: int)
    requires self < MAX_NODES && incarnation != 0 && n != self
    ensures Follows(Started(self, incarnation), self, [], n, timeout)
  {
    StartedKeepsInv(self, incarnation);
  }

  lemma {:induction false} StatesFollow(states: seq<Supervisor>, steps: seq<Step>, self: nat, n: nat,
          timeout: int, k: nat)
    requires IsPath(states, steps) && k <= |steps| && n != self && Regular(steps, timeout)
    requires Follows(states[0], self, [], n, timeout)
    ensures Follows(states[k], self, steps[..k], n, timeout)
  {
    if k == 0 {
      assert steps[..0] == [];
    } else {
      StatesFollow(states, steps, self, n, timeout, k - 1);
      assert steps[..k][..k - 1] == steps[..k - 1];
      StepFollows(states[k - 1], self, steps[..k], states[k], n, timeout);
    }
  }

  lemma AllFollow(s: Supervisor, steps: seq<Step>, t: Supervisor, self: nat, n: nat, timeout: int)
    requires Follows(s, self, [], n, timeout) && n != self && Path(s, steps, t) && Regular(steps, timeout)
    ensures n in t.view.nodesSeen <==> Watched(steps, n, timeout)
  {
    var states := StatesOf(s, steps, t);
    assert steps[..|steps|] == steps;
    StatesFollow(states, steps, self, n, timeout, |steps|);
  }

  /** Which nodes a supervisor sees, over all that it sends and gets from its
      start on: exactly those that are watched. */
  lemma SeenIsWatched(self: nat, incarnation: nat, steps: seq<Step>, t: Supervisor, n: nat, timeout: int)
    requires self < MAX_NODES && incarnation != 0 && n != self
    requires Path(Started(self, incarnation), steps, t) && Regular(steps, timeout)
    ensures n in t.view.nodesSeen <==> Watched(steps, n, timeout)
  {
    StartFollows(self, incarnation, n, timeout);
    AllFollow(Started(self, incarnation), steps, t, self, n, timeout);
  }

  predicate NeverRestarts(steps: seq<Step>, n: nat, incarnation: nat) {
    forall i | 0 <= i < |steps| :: IsFrom(steps[i], n) ==> steps[i].ping.incarnation == incarnation
  }

  lemma {:induction false} WatchedIff(steps: seq<Step>, n: nat, timeout: int, incarnation: nat)
    requires Regular(steps, timeout) && NeverRestarts(steps, n, incarnation)
    ensures Watched(steps, n, timeout) <==> Heard(steps, n) && SinceHeard(steps, n) < timeout
    ensures Heard(steps, n) ==> LastIncarnation(steps, n) == incarnation
    decreases |steps|
  {
    if steps != [] {
      WatchedIff(steps[..|steps| - 1], n, timeout, incarnation);
      HeardSplits(steps, n);
    }
  }

  /** A node that does not restart is seen if and only if it has been heard and
      the periods since its last ping have not reached the timeout. */
  lemma SeenIff(self: nat, incarnation: nat, steps: seq<Step>, t: Supervisor, n: nat, timeout: int, inca: nat)
    requires self < MAX_NODES && incarnation != 0 && n != self
    requires Path(Started(self, incarnation), steps, t) && Regular(steps, timeout) && NeverRestarts(steps, n, inca)
    ensures n in t.view.nodesSeen <==> Heard(steps, n) && SinceHeard(steps, n) < timeout
  {
    SeenIsWatched(self, incarnation, steps, t, n, timeout);
    WatchedIff(steps, n, timeout, inca);
  }

  // ------------------------------------------------------------ marks of change

  predicate Marked(s: Supervisor) {
    s.selfChanged || s.otherChanged
  }

  /** A ping announces a change if and only if there is a mark of one or a node
      goes out of sight with it; the marks are then gone. */
  lemma SentAnnounces(s: Supervisor, period: int, timeout: int, t: Supervisor)
    requires Sound(s) && Makes(s, Sent(period, timeout), t)
    ensures !Marked(t)
    ensures t.view.state == if Marked(s) || t.view.nodesSeen != s.view.nodesSeen then Change else s.view.state
  {
    var dead := Expired(s, period, timeout);
    assert t.view.nodesSeen == s.view.nodesSeen - dead;
    if dead != {} {
      var n :| n in dead;
      assert n in s.view.nodesSeen && n !in t.view.nodesSeen;
    }
  }

  /** What leaves a mark: a change of the nodes seen, and a node that is new, has
      restarted, sees other nodes or has another coordinator. */
  lemma GotMarks(s: Supervisor, p: Ping, timeout: int, t: Supervisor)
    requires Sound(s) && Makes(s, Got(p, timeout), t)
    ensures t.selfChanged <==> s.selfChanged || t.view.nodesSeen != s.view.nodesSeen
    ensures t.otherChanged <==> s.otherChanged || (p.sender != s.self && !TellsNothing(s, p))
  {
    GotIsNoted(s, p, timeout, t);
    if p.sender != s.self {
      NotedMarks(s, p, timeout);
    }
  }

  /** The ping tells what s knows of its sender already. */
  predicate TellsNothing(s: Supervisor, p: Ping) {
    && p.sender in s.others
    && s.others[p.sender].incarnation == p.incarnation
    && s.others[p.sender].view.nodesSeen == p.view.nodesSeen
    && s.others[p.sender].view.coord == p.view.coord
  }

  lemma NotedMarks(s: Supervisor, p: Ping, timeout: int)
    requires Sound(s) && p.sender != s.self && CheckPing(p)
    ensures var u := UpdateNodeInfo(s, p, timeout);
            && (u.selfChanged <==> s.selfChanged || u.view.nodesSeen != s.view.nodesSeen)
            && (u.otherChanged <==> s.otherChanged || !TellsNothing(s, p))
  {
    var u := UpdateNodeInfo(s, p, timeout);
    if p.sender !in s.view.nodesSeen {
      assert p.sender in u.view.nodesSeen;
    } else if s.others[p.sender].incarnation != p.incarnation {
      assert p.sender !in u.view.nodesSeen;
    }
  }

  /** Without a mark the clique is the one of the present table. */
  ghost predicate Current(s: Supervisor) {
    s.view.state != Unknown && !Marked(s) ==>
      InRange(s.Table().Keys) && SelfSeeing(s.Table()) && s.view.clique == CliqueOf(s.Table(), s.self)
  }

  /** The table depends on what is stored and on the nodes seen only. */
  lemma SameTable(s: Supervisor, t: Supervisor)
    requires t.self == s.self && t.others.Keys == s.others.Keys && t.view.nodesSeen == s.view.nodesSeen
    requires forall n | n in s.others :: t.others[n].view.nodesSeen == s.others[n].view.nodesSeen
    ensures t.Table() == s.Table()
  {
    assert t.Known() == s.Known();
  }

  lemma SentHasClique(a: Supervisor, k: set<nat>)
    ensures var t := PostPing(WithClique(a, k));
            && t.view.clique == k && t.view.state == Change && !Marked(t)
            && t.self == a.self && t.others == a.others && t.view.nodesSeen == a.view.nodesSeen
  {
  }

  lemma RecliquedIsCurrent(a: Supervisor)
    requires InRange(a.Table().Keys) && SelfSeeing(a.Table()) && Marked(a)
    ensures var t := PostPing(Reclique(a)); Current(t) && t.view.state == Change && !Marked(t)
  {
    SentHasClique(a, CliqueOf(a.Table(), a.self));
    SameTable(a, PostPing(WithClique(a, CliqueOf(a.Table(), a.self))));
  }

  lemma AgedKeepsStored(s: Supervisor, period: int, timeout: int)
    ensures var a := Aged(s, period, timeout);
            && a.self == s.self && a.others.Keys == s.others.Keys
            && (forall n | n in s.others :: a.others[n].view.nodesSeen == s.others[n].view.nodesSeen)
            && (s.selfChanged ==> a.selfChanged) && a.otherChanged == s.otherChanged
  {
  }

  lemma CurrentCarries(s: Supervisor, t: Supervisor)
    requires Current(s) && s.view.state != Unknown && !Marked(s)
    requires t.self == s.self && t.others.Keys == s.others.Keys && t.view.nodesSeen == s.view.nodesSeen
    requires forall n | n in s.others :: t.others[n].view.nodesSeen == s.others[n].view.nodesSeen
    requires t.view.clique == s.view.clique
    ensures Current(t)
  {
    SameTable(s, t);
  }

  lemma QuietIsCurrent(s: Supervisor, period: int, timeout: int)
    requires Inv(s) && Current(s) && !Marked(Aged(s, period, timeout))
    ensures var t := PostPing(Aged(s, period, timeout)); Current(t) && t.view.state != Unknown
  {
    AgedUnchanged(s, period, timeout);
    AgedKeepsStored(s, period, timeout);
    CurrentCarries(s, PostPing(Aged(s, period, timeout)));
  }

  lemma SentIsCurrent(s: Supervisor, period: int, timeout: int, t: Supervisor)
    requires Inv(s) && Current(s) && Makes(s, Sent(period, timeout), t)
    ensures Current(t) && t.view.state != Unknown && !Marked(t)
  {
    AgedIsSound(s, period, timeout);
    var a := Aged(s, period, timeout);
    assert t == PostPing(Reclique(a));
    if Marked(a) {
      RecliquedIsCurrent(a);
    } else {
      assert t == PostPing(a);
      QuietIsCurrent(s, period, timeout);
    }
  }

  lemma NotedKeepsTable(s: Supervisor, p: Ping, timeout: int)
    requires Sound(s) && p.sender != s.self && TellsNothing(s, p)
    requires UpdateNodeInfo(s, p, timeout).view.nodesSeen == s.view.nodesSeen
    ensures UpdateNodeInfo(s, p, timeout).Table() == s.Table()
  {
    UpdateStores(s, p, timeout);
    SameTable(s, UpdateNodeInfo(s, p, timeout));
  }

  lemma GotIsCurrent(s: Supervisor, p: Ping, timeout: int, t: Supervisor)
    requires Inv(s) && Current(s) && Makes(s, Got(p, timeout), t)
    ensures Current(t) && t.view.state != Unknown
  {
    GotMarks(s, p, timeout, t);
    GotIsNoted(s, p, timeout, t);
    if !Marked(t) {
      if p.sender != s.self {
        NotedKeepsTable(s, p, timeout);
        SameTable(UpdateNodeInfo(s, p, timeout), t);
      } else {
        SameTable(s, t);
      }
    }
  }

  lemma {:induction false} StatesAreCurrent(states: seq<Supervisor>, steps: seq<Step>, k: nat)
    requires IsPath(states, steps) && k <= |steps| && Inv(states[0]) && Current(states[0])
    ensures Inv(states[k]) && Current(states[k])
    ensures k > 0 && steps[k - 1].Sent? ==> states[k].view.state != Unknown && !Marked(states[k])
  {
    if k > 0 {
      StatesAreCurrent(states, steps, k - 1);
      MakesKeepsInv(states[k - 1], steps[k - 1], states[k]);
      match steps[k - 1] {
        case Sent(period, timeout) => SentIsCurrent(states[k - 1], period, timeout, states[k]);
        case Got(p, timeout) => GotIsCurrent(states[k - 1], p, timeout, states[k]);
      }
    }
  }

  /** Incremental is as good as immediate: after every ping sent, the clique is
      the one that the table of that moment gives, although it is computed again
      only on a mark. */
  lemma CliqueIsCurrent(self: nat, incarnation: nat, steps: seq<Step>, t: Supervisor)
    requires self < MAX_NODES && incarnation != 0 && Path(Started(self, incarnation), steps, t)
    ensures Current(t)
    ensures steps != [] && steps[|steps| - 1].Sent? ==>
              && InRange(t.Table().Keys) && SelfSeeing(t.Table())
              && t.view.clique == CliqueOf(t.Table(), t.self)
  {
    StartedKeepsInv(self, incarnation);
    var states := StatesOf(Started(self, incarnation), steps, t);
    StatesAreCurrent(states, steps, |steps|);
  }
}
