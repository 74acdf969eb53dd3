/**
 The supervisor daemon as the program runs it (csupd/src/exa_csupd.c): static
 variables that the ping handlers update in place. Every method is proved
 against the functions of module Supervision.
 */
module SupervisionDaemon {
  import opened Common
  import opened SupView
  import opened Clique
  import opened Supervision

  ghost function OthersBelow(s: Supervisor, k: nat, period: int, timeout: int): map<nat, NodeInfo> {
    map n | n in s.others ::
      if n < k && n in s.view.nodesSeen then AgedInfo(s.others[n], period, timeout) else s.others[n]
  }

  ghost function DeadBelow(s: Supervisor, k: nat, period: int, timeout: int): set<nat> {
    set n | n in Expired(s, period, timeout) && n < k
  }

  /** update_last_seen when the nodes below k have been visited. */
  ghost function AgedBelow(s: Supervisor, k: nat, period: int, timeout: int): Supervisor {
    var dead := DeadBelow(s, k, period, timeout);
    s.(others := OthersBelow(s, k, period, timeout),
       view := Deleted(s.view, dead),
       selfChanged := s.selfChanged || dead != {})
  }

  lemma AgedBelowZero(s: Supervisor, period: int, timeout: int)
    requires Sound(s)
    ensures AgedBelow(s, 0, period, timeout) == s
  {
    assert OthersBelow(s, 0, period, timeout) == s.others;
    assert DeadBelow(s, 0, period, timeout) == {};
    assert s.view.nodesSeen - {} == s.view.nodesSeen;
  }

  lemma OthersBelowVisits(s: Supervisor, k: nat, period: int, timeout: int)
    requires k in s.others && k in s.view.nodesSeen
    ensures OthersBelow(s, k + 1, period, timeout) ==
            OthersBelow(s, k, period, timeout)[k := AgedInfo(s.others[k], period, timeout)]
  {
  }

  /** Deleting node by node is deleting all at once. */
  lemma DeletedTwice(v: View, a: set<nat>, n: nat)
    requires Tight(v.nodesSeen, v.numSeen)
    ensures Deleted(Deleted(v, a), {n}) == Deleted(v, a + {n})
  {
    var x, y := Deleted(Deleted(v, a), {n}), Deleted(v, a + {n});
    assert x.nodesSeen == y.nodesSeen;
    TightIsUnique(x.nodesSeen, x.numSeen, y.numSeen);
  }

  /** The body of the loop of update_last_seen. */
  function AgedOne(x: Supervisor, n: nat, period: int, timeout: int): Supervisor {
    if n in x.others && n in x.view.nodesSeen then
      if x.others[n].lastSeen + period >= timeout then MarkDead(x, n, timeout)
      else x.(others := x.others[n := x.others[n].(lastSeen := x.others[n].lastSeen + period)])
    else x
  }

  lemma AgedBelowStep(s: Supervisor, k: nat, period: int, timeout: int)
    requires Sound(s)
    ensures AgedOne(AgedBelow(s, k, period, timeout), k, period, timeout) == AgedBelow(s, k + 1, period, timeout)
  {
    if k in s.others && k in s.view.nodesSeen {
      OthersBelowVisits(s, k, period, timeout);
      if k in Expired(s, period, timeout) {
        assert DeadBelow(s, k + 1, period, timeout) == DeadBelow(s, k, period, timeout) + {k};
        DeletedTwice(s.view, DeadBelow(s, k, period, timeout), k);
      } else {
        assert DeadBelow(s, k + 1, period, timeout) == DeadBelow(s, k, period, timeout);
      }
    } else {
      assert DeadBelow(s, k + 1, period, timeout) == DeadBelow(s, k, period, timeout);
      assert OthersBelow(s, k + 1, period, timeout) == OthersBelow(s, k, period, timeout);
    }
  }

  lemma MarkDeadForgetsAge(x: Supervisor, n: nat, lastSeen: int, timeout: int)
    requires n in x.others
    ensures MarkDead(x.(others := x.others[n := x.others[n].(lastSeen := lastSeen)]), n, timeout) == MarkDead(x, n, timeout)
  {
    assert x.others[n := x.others[n].(lastSeen := lastSeen)][n := Dead(x.others[n], timeout)]
        == x.others[n := Dead(x.others[n], timeout)];
  }

  /** When no node from k on is seen any more, all have been visited. */
  lemma AgedBelowIsAged(s: Supervisor, k: nat, period: int, timeout: int)
    requires Sound(s) && AgedBelow(s, k, period, timeout).view.numSeen <= k
    ensures AgedBelow(s, k, period, timeout) == Aged(s, period, timeout)
  {
    var x := AgedBelow(s, k, period, timeout);
    assert Tight(x.view.nodesSeen, x.view.numSeen);
    assert forall n | n in s.view.nodesSeen && n >= k :: n in x.view.nodesSeen;
    assert forall n | n in s.view.nodesSeen :: n < k;
    assert DeadBelow(s, k, period, timeout) == Expired(s, period, timeout);
    assert OthersBelow(s, k, period, timeout) == Aged(s, period, timeout).others;
  }

  /** Once a ping is noted, its reaction can be computed. */
  lemma NotedIsReady(s: Supervisor, p: Ping, timeout: int)
    requires Inv(s) && s.view.state != Unknown && CheckPing(p) && p.sender < MAX_NODES
    ensures Tight(s.view.nodesSeen, s.view.numSeen)
    ensures var t := if p.sender == s.self then s else UpdateNodeInfo(s, p, timeout);
            Sound(t) && t.view.clique <= t.Known() && t.view.state != Unknown
  {
    if p.sender != s.self {
      UpdateKeepsInv(s, p, timeout);
    }
  }

  class Daemon {
    const self: nat
    const incarnation: nat
    var view: View
    var others: map<nat, NodeInfo>
    var selfChanged: bool
    var otherChanged: bool
    var acceptedClique: set<nat>
    var accepts: seq<Membership>
    var delivered: seq<Membership>

    ghost function State(): Supervisor
      reads this
    {
      Supervisor(self, incarnation, view, others, selfChanged, otherChanged, acceptedClique, accepts, delivered)
    }

    constructor (self: nat, incarnation: nat)
      ensures State() == Started(self, incarnation)
    {
      this.self := self;
      this.incarnation := incarnation;
      view := Added(INITIAL, self);
      others := map[];
      selfChanged, otherChanged := true, false;
      acceptedClique := {};
      accepts, delivered := [], [];
    }

    method MarkNodeAlive(n: nat)
      requires n in others && Tight(view.nodesSeen, view.numSeen)
      modifies this
      ensures State() == MarkAlive(old(State()), n)
    {
      others := others[n := others[n].(lastSeen := 0)];
      if n !in view.nodesSeen {
        view := AddNode(view, n);
        selfChanged := true;
      }
    }

    method MarkNodeDead(n: nat, timeout: int)
      requires n in others && n != self && Tight(view.nodesSeen, view.numSeen)
      modifies this
      ensures State() == MarkDead(old(State()), n, timeout)
    {
      others := others[n := Dead(others[n], timeout)];
      if n in view.nodesSeen {
        view := DelNode(view, n);
        selfChanged := true;
      }
    }

    /** update_last_seen. The bound of the loop shrinks when the highest node
        seen dies. */
    method UpdateLastSeen(period: int, timeout: int)
      requires Sound(State())
      modifies this
      ensures State() == Aged(old(State()), period, timeout)
    {
      ghost var s := State();
      var n := 0;
      AgedBelowZero(s, period, timeout);
      while n < view.numSeen
        invariant State() == AgedBelow(s, n, period, timeout)
        invariant n <= s.view.numSeen
      {
        AgedBelowStep(s, n, period, timeout);
        AgeNode(n, period, timeout);
        n := n + 1;
      }
      AgedBelowIsAged(s, n, period, timeout);
    }

    method AgeNode(n: nat, period: int, timeout: int)
      requires self !in others && Tight(view.nodesSeen, view.numSeen)
      modifies this
      ensures State() == AgedOne(old(State()), n, period, timeout)
    {
      if n in others && n != self && n in view.nodesSeen {
        MarkDeadForgetsAge(State(), n, others[n].lastSeen + period, timeout);
        others := others[n := others[n].(lastSeen := others[n].lastSeen + period)];
        if others[n].lastSeen >= timeout {
          MarkNodeDead(n, timeout);
        }
      }
    }

    method CliqueSeesSelf() returns (yes: bool)
      requires Sound(State()) && view.clique <= State().Known()
      ensures yes == CliqueSeesSelfAsCoord(State())
    {
      for n := 0 to view.numSeen
        invariant forall m | m in view.clique && m < n ::
                    && m in view.nodesSeen
                    && State().ViewOf(m).clique == view.clique
                    && State().ViewOf(m).coord == view.coord
      {
        if n in view.clique {
          var v := if n == self then view else others[n].view;
          if n !in view.nodesSeen || v.clique != view.clique || v.coord != view.coord {
            return false;
          }
        }
      }
      return true;
    }

    method CliqueAccepted(gen: nat) returns (yes: bool)
      requires Sound(State()) && view.clique <= State().Known()
      ensures yes == CliqueHasAccepted(State(), gen)
    {
      for n := 0 to view.numSeen
        invariant forall m | m in view.clique && m < n ::
                    && m in view.nodesSeen
                    && State().ViewOf(m).clique == view.clique
                    && State().ViewOf(m).accepted == gen
      {
        if n in view.clique {
          var v := if n == self then view else others[n].view;
          if n !in view.nodesSeen || v.clique != view.clique || v.accepted != gen {
            return false;
          }
        }
      }
      return true;
    }

    method ComputeNextGen() returns (gen: nat)
      ensures gen == NextGen(State())
    {
      var maxGen := 0;
      for n := 0 to view.numSeen
        invariant maxGen == MaxGen(State(), n)
      {
        if (n == self || n in others) && n in view.nodesSeen {
          var v := if n == self then view else others[n].view;
          if v.accepted > maxGen { maxGen := v.accepted; }
          if v.committed > maxGen { maxGen := v.committed; }
        }
      }
      return maxGen + 1;
    }

    method DoAccept(gen: nat)
      modifies this
      ensures State() == AcceptClique(old(State()), gen)
    {
      view := view.(state := Accept, accepted := gen);
      acceptedClique := view.clique;
      accepts := accepts + [Membership(gen, view.clique)];
    }

    method DoCommit()
      modifies this
      ensures State() == CommitClique(old(State()))
    {
      delivered := delivered + [Membership(view.accepted, acceptedClique)];
      view := view.(state := Commit, committed := view.accepted);
    }

    method ProcessInChange(p: Ping)
      requires Sound(State()) && view.clique <= State().Known()
      modifies this
      ensures State() == InChange(old(State()), p)
    {
      match p.view.state {
        case Unknown =>
        case Change =>
          if view.coord == self {
            var agreed := CliqueSeesSelf();
            if agreed {
              var gen := ComputeNextGen();
              DoAccept(gen);
            }
          }
        case Accept =>
          if view.coord != self {
            var highest := if view.accepted > view.committed then view.accepted else view.committed;
            if p.sender == view.coord && p.view.clique == view.clique && p.view.accepted > highest {
              DoAccept(p.view.accepted);
            }
          }
        case Commit =>
          CommitIfAccepted(p);
      }
    }

    method CommitIfAccepted(p: Ping)
      modifies this
      ensures State() == FollowCommit(old(State()), p)
    {
      if view.coord != self {
        if p.view.clique == acceptedClique && p.view.committed == view.accepted && p.view.committed > view.committed {
          DoCommit();
        }
      }
    }

    method ProcessInAccept(p: Ping)
      requires Sound(State()) && view.clique <= State().Known()
      modifies this
      ensures State() == InAccept(old(State()), p)
    {
      match p.view.state {
        case Unknown =>
        case Change =>
        case Accept =>
          if view.coord == self && p.view.coord == self && p.view.accepted == view.accepted {
            var all := CliqueAccepted(view.accepted);
            if all {
              DoCommit();
            }
          }
        case Commit =>
          CommitIfAccepted(p);
      }
    }

    method UpdateInfo(p: Ping, timeout: int)
      requires p.sender != self && Tight(view.nodesSeen, view.numSeen)
      modifies this
      ensures State() == UpdateNodeInfo(old(State()), p, timeout)
    {
      var known := if p.sender in others then others[p.sender] else NodeInfo(0, INITIAL, 0);
      var incaChanged := p.incarnation != known.incarnation;
      var viewChanged := !SameView(p.view, known.view);
      var rebootedTooFast := p.sender in view.nodesSeen && incaChanged;
      others := others[p.sender := known.(incarnation := p.incarnation, view := p.view)];
      if rebootedTooFast {
        MarkNodeDead(p.sender, timeout);
      } else {
        MarkNodeAlive(p.sender);
      }
      if incaChanged || viewChanged {
        otherChanged := true;
      }
    }

    /** What a ping tells about its sender is stored. */
    method Note(p: Ping, timeout: int)
      requires Tight(view.nodesSeen, view.numSeen)
      modifies this
      ensures State() == if p.sender == self then old(State()) else UpdateNodeInfo(old(State()), p, timeout)
    {
      if p.sender != self {
        UpdateInfo(p, timeout);
      }
    }

    /** The reaction of the current state. */
    method ReactTo(p: Ping)
      requires Sound(State()) && view.clique <= State().Known() && view.state != Unknown
      modifies this
      ensures State() == React(old(State()), p)
    {
      match view.state {
        case Change => ProcessInChange(p);
        case Accept => ProcessInAccept(p);
        case Commit =>
      }
    }

    /** sup_process_ping. The states asserted impossible by the program are
        excluded by the precondition, which Agreement.RunKeepsInv shows to hold
        in every run. */
    method Process(p: Ping, timeout: int)
      requires Inv(State()) && view.state != Unknown && CheckPing(p) && p.sender < MAX_NODES
      modifies this
      ensures State() == ProcessPing(old(State()), p, timeout)
      ensures Inv(State())
    {
      NotedIsReady(State(), p, timeout);
      ReceiveKeepsInv(State(), p, timeout);
      Note(p, timeout);
      ReactTo(p);
    }

    method AdoptClique(k: set<nat>)
      modifies this
      ensures State() == WithClique(old(State()), k)
    {
      if k != view.clique {
        view := view.(clique := k);
        var coord := First(k);
        if coord != view.coord {
          view := view.(coord := coord);
        }
      }
      view := view.(state := Change);
    }

    method RecomputeClique()
      requires InRange(State().Table().Keys) && SelfSeeing(State().Table())
      modifies this
      ensures State() == Reclique(old(State()))
    {
      if selfChanged || otherChanged {
        var t := map n | n in others.Keys + {self} :: if n == self then view.nodesSeen else others[n].view.nodesSeen;
        assert t == State().Table();
        var k := ComputeClique(t, self);
        AdoptClique(k);
      }
    }

    /** sup_pre_ping */
    method BeforePing(period: int, timeout: int)
      requires Inv(State())
      modifies this
      ensures State() == PrePing(old(State()), period, timeout)
      ensures Inv(PostPing(State()))
    {
      SendKeepsInv(State(), period, timeout);
      AgedIsSound(State(), period, timeout);
      UpdateLastSeen(period, timeout);
      RecomputeClique();
    }

    /** sup_post_ping */
    method AfterPing()
      modifies this
      ensures State() == PostPing(old(State()))
    {
      selfChanged, otherChanged := false, false;
    }
  }
}
