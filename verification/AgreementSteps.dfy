/**
 What makes a supervisor accept and deliver a membership
 (csupd/src/exa_csupd.c), in every run of a cluster: exactly which pings, and
 which membership.
 */
module AgreementSteps {
  import opened Common
  import opened SupView
  import opened Supervision
  import opened Agreement

  /** Supervisor s knows node n, if only from ping p. */
  predicate IsTold(s: Supervisor, p: Ping, n: nat) {
    n == s.self || n == p.sender || n in s.others
  }

  /** The view of node n that s has when it has got ping p. */
  function Latest(s: Supervisor, p: Ping, n: nat): View
    requires IsTold(s, p, n)
  {
    if n == s.self then s.view else if n == p.sender then p.view else s.others[n].view
  }

  /** All members of the clique of s hold that clique, with s as coordinator. */
  predicate AllAgree(s: Supervisor, p: Ping) {
    forall n | n in s.view.clique ::
      IsTold(s, p, n) && Latest(s, p, n).clique == s.view.clique && Latest(s, p, n).coord == s.self
  }

  /** All members of the clique of s have accepted the generation of s for it. */
  predicate AllAccepted(s: Supervisor, p: Ping) {
    forall n | n in s.view.clique ::
      IsTold(s, p, n) && Latest(s, p, n).clique == s.view.clique && Latest(s, p, n).accepted == s.view.accepted
  }

  function Highest(v: View): nat {
    if v.accepted > v.committed then v.accepted else v.committed
  }

  /** gen is one more than the highest generation of the nodes seen. */
  predicate IsNextGen(s: Supervisor, p: Ping, gen: nat) {
    && (forall n | n in s.view.nodesSeen + {p.sender} :: IsTold(s, p, n) && Highest(Latest(s, p, n)) < gen)
    && (gen == 1
        || exists n | n in s.view.nodesSeen + {p.sender} && IsTold(s, p, n) :: Highest(Latest(s, p, n)) == gen - 1)
  }

  /** s, having got p, accepts its clique with generation gen. */
  predicate MayAccept(s: Supervisor, p: Ping, gen: nat) {
    && s.view.state == Change
    && if s.view.coord == s.self then p.view.state == Change && AllAgree(s, p) && IsNextGen(s, p, gen)
       else
         && p.view.state == Accept && p.sender == s.view.coord && p.view.clique == s.view.clique
         && gen == p.view.accepted && gen > s.view.accepted && gen > s.view.committed
  }

  /** s, having got p, delivers what it accepted last. */
  predicate MayDeliver(s: Supervisor, p: Ping) {
    if s.view.coord == s.self then
      && s.view.state == Accept && p.view.state == Accept
      && p.view.coord == s.self && p.view.accepted == s.view.accepted && AllAccepted(s, p)
    else
      && s.view.state != Commit && p.view.state == Commit && s.accepts != []
      && s.accepts[|s.accepts| - 1] == Membership(p.view.committed, p.view.clique)
      && p.view.committed > s.view.committed
  }

  // ------------------------------------------------------------ noting the ping

  ghost predicate Receives(c: Cluster, i: nat, p: Ping) {
    && ClusterInv(c) && i < |c.nodes| && p in c.sent && c.nodes[i].view.state != Unknown
    && PingTrue(c.nodes, p) && Agreement.NodeOk(c, i)
  }

  lemma NotedIsLatest(c: Cluster, i: nat, p: Ping, timeout: int, n: nat)
    requires Receives(c, i, p) && IsTold(c.nodes[i], p, n)
    ensures var u, v := Noted(c.nodes[i], p, timeout), Latest(c.nodes[i], p, n);
            && n in u.Known()
            && u.ViewOf(n).clique == v.clique && u.ViewOf(n).coord == v.coord
            && u.ViewOf(n).accepted == v.accepted && u.ViewOf(n).committed == v.committed
  {
    NotedKeepsLogs(c.nodes[i], p, timeout);
    if p.sender != i {
      UpdateStores(c.nodes[i], p, timeout);
    }
  }

  /** Without restarts a sender is seen, and nobody goes out of sight. */
  lemma NotedSeesMore(c: Cluster, i: nat, p: Ping, timeout: int)
    requires Receives(c, i, p)
    ensures Noted(c.nodes[i], p, timeout).view.nodesSeen == c.nodes[i].view.nodesSeen + {p.sender}
    ensures forall n | n in c.nodes[i].view.nodesSeen + {p.sender} :: IsTold(c.nodes[i], p, n)
  {
    var s := c.nodes[i];
    assert p.sender in s.view.nodesSeen ==> s.view.nodesSeen + {p.sender} == s.view.nodesSeen;
  }

  lemma {:induction false} MaxGenIsReached(s: Supervisor, k: nat)
    ensures MaxGen(s, k) == 0 || exists n | n in s.Known()
            && n in s.view.nodesSeen :: Highest(s.ViewOf(n)) == MaxGen(s, k)
  {
    if k > 0 { MaxGenIsReached(s, k - 1); }
  }

  lemma NextGenIsNext(c: Cluster, i: nat, p: Ping, timeout: int)
    requires Receives(c, i, p)
    ensures Sound(Noted(c.nodes[i], p, timeout)) && IsNextGen(c.nodes[i], p, NextGen(Noted(c.nodes[i], p, timeout)))
  {
    var s, u := c.nodes[i], Noted(c.nodes[i], p, timeout);
    NotedIsTrue(c, i, p, timeout);
    NotedSeesMore(c, i, p, timeout);
    forall n | n in s.view.nodesSeen + {p.sender} ensures Highest(Latest(s, p, n)) < NextGen(u) {
      NextGenIsNew(u, n);
      NotedIsLatest(c, i, p, timeout, n);
    }
    MaxGenIsReached(u, u.view.numSeen);
    if NextGen(u) != 1 {
      var n :| n in u.Known() && n in u.view.nodesSeen && Highest(u.ViewOf(n)) == NextGen(u) - 1;
      NotedIsLatest(c, i, p, timeout, n);
      assert n in s.view.nodesSeen + {p.sender} && Highest(Latest(s, p, n)) == NextGen(u) - 1;
    }
  }

  lemma NextGenIsUnique(s: Supervisor, p: Ping, gen: nat, other: nat)
    requires IsNextGen(s, p, gen) && IsNextGen(s, p, other) && gen > 0 && other > 0
    ensures gen == other
  {
    if gen > 1 {
      var n :| n in s.view.nodesSeen + {p.sender} && IsTold(s, p, n) && Highest(Latest(s, p, n)) == gen - 1;
    }
    if other > 1 {
      var n :| n in s.view.nodesSeen + {p.sender} && IsTold(s, p, n) && Highest(Latest(s, p, n)) == other - 1;
    }
  }

  // ------------------------------------------------------------ what is tested

  lemma MembersAreTold(c: Cluster, i: nat, p: Ping, timeout: int, n: nat)
    requires Receives(c, i, p) && n in c.nodes[i].view.clique
    ensures IsTold(c.nodes[i], p, n)
    ensures var u := Noted(c.nodes[i], p, timeout); n in u.view.nodesSeen && n < u.view.numSeen && n in u.Known()
  {
    NotedIsTrue(c, i, p, timeout);
    NotedKeepsLogs(c.nodes[i], p, timeout);
    NotedSeesMore(c, i, p, timeout);
  }

  lemma AgreeIff(c: Cluster, i: nat, p: Ping, timeout: int)
    requires Receives(c, i, p) && c.nodes[i].view.coord == i
    ensures CliqueSeesSelfAsCoord(Noted(c.nodes[i], p, timeout)) <==> AllAgree(c.nodes[i], p)
  {
    NotedKeepsLogs(c.nodes[i], p, timeout);
    forall n | n in c.nodes[i].view.clique
      ensures var u := Noted(c.nodes[i], p, timeout);
              && IsTold(c.nodes[i], p, n) && n in u.view.nodesSeen && n < u.view.numSeen && n in u.Known()
              && u.ViewOf(n).clique == Latest(c.nodes[i], p, n).clique
              && u.ViewOf(n).coord == Latest(c.nodes[i], p, n).coord
    {
      MembersAreTold(c, i, p, timeout, n);
      NotedIsLatest(c, i, p, timeout, n);
    }
  }

  lemma AcceptedIff(c: Cluster, i: nat, p: Ping, timeout: int)
    requires Receives(c, i, p)
    ensures CliqueHasAccepted(Noted(c.nodes[i], p, timeout), c.nodes[i].view.accepted) <==> AllAccepted(c.nodes[i], p)
  {
    NotedKeepsLogs(c.nodes[i], p, timeout);
    forall n | n in c.nodes[i].view.clique
      ensures var u := Noted(c.nodes[i], p, timeout);
              && IsTold(c.nodes[i], p, n) && n in u.view.nodesSeen && n < u.view.numSeen && n in u.Known()
              && u.ViewOf(n).clique == Latest(c.nodes[i], p, n).clique
              && u.ViewOf(n).accepted == Latest(c.nodes[i], p, n).accepted
    {
      MembersAreTold(c, i, p, timeout, n);
      NotedIsLatest(c, i, p, timeout, n);
    }
  }

  // -------------------------------------------------------------- one reaction

  /** The reaction of a supervisor in state u that has noted p. */
  lemma ReactsIff(u: Supervisor, p: Ping)
    requires Inv(u) && u.view.state != Unknown
    ensures var t := React(u, p);
            var proposes := u.view.state == Change && u.IsCoord() && p.view.state == Change && CliqueSeesSelfAsCoord(u);
            var takes := u.view.state == Change && !u.IsCoord() && p.view.state == Accept && p.sender == u.view.coord
                         && p.view.clique == u.view.clique && p.view.accepted > u.HighestGen();
            && t.accepts == (if proposes then u.accepts + [Membership(NextGen(u), u.view.clique)]
                             else if takes then u.accepts + [Membership(p.view.accepted, u.view.clique)] else u.accepts)
  {
  }

  lemma CommitsIff(u: Supervisor, p: Ping)
    requires Inv(u) && u.view.state != Unknown
    ensures var t := React(u, p);
            var commits := u.view.state == Accept && u.IsCoord() && p.view.state == Accept && p.view.coord == u.self
                           && p.view.accepted == u.view.accepted && CliqueHasAccepted(u, u.view.accepted);
            var follows := u.view.state != Commit && !u.IsCoord() && p.view.state == Commit && u.accepts != []
                           && u.accepts[|u.accepts| - 1] == Membership(p.view.committed, p.view.clique)
                           && p.view.committed > u.view.committed;
            if commits || follows then u.accepts != [] && t.delivered == u.delivered + [u.accepts[|u.accepts| - 1]]
            else t.delivered == u.delivered
  {
  }

  lemma ReceivesOf(run: seq<Cluster>, events: seq<Event>, k: nat)
    requires IsRun(run, events) && k < |events| && events[k].Receive?
    ensures Receives(run[k], events[k].node, events[k].ping)
    ensures |run[k + 1].nodes| == |run[k].nodes|
    ensures var u := Noted(run[k].nodes[events[k].node], events[k].ping, events[k].timeout);
            u.view.state != Unknown && Inv(u) && run[k + 1].nodes[events[k].node] == React(u, events[k].ping)
  {
    RunKeepsInv(run, events, k);
    var c, i, p := run[k], events[k].node, events[k].ping;
    assert Next(c, events[k], run[k + 1]);
    assert PingTrue(c.nodes, p) && Agreement.NodeOk(c, i);
    NotedIsTrue(c, i, p, events[k].timeout);
    NotedKeepsLogs(c.nodes[i], p, events[k].timeout);
  }

  /** Accepting, exactly. In every run, a supervisor that gets a ping accepts a
      membership if and only if it is in state CHANGE and either is the
      coordinator, hears another node in CHANGE and knows that all members hold
      its clique and coordinator, or hears its coordinator in ACCEPT with its
      clique and a generation above its own. */
  lemma AcceptsIff(run: seq<Cluster>, events: seq<Event>, k: nat, gen: nat)
    requires IsRun(run, events) && k < |events| && events[k].Receive?
    ensures |run[k + 1].nodes| == |run[k].nodes| && events[k].node < |run[k].nodes|
    ensures var s, t := run[k].nodes[events[k].node], run[k + 1].nodes[events[k].node];
            && (t.accepts == s.accepts + [Membership(gen, s.view.clique)] <==>
                  gen > 0 && MayAccept(s, events[k].ping, gen))
            && (t.accepts == s.accepts || exists g: nat :: t.accepts == s.accepts + [Membership(g, s.view.clique)])
  {
    ReceivesOf(run, events, k);
    var c, i, p, timeout := run[k], events[k].node, events[k].ping, events[k].timeout;
    var s, u := c.nodes[i], Noted(c.nodes[i], p, timeout);
    NotedKeepsLogs(s, p, timeout);
    ReactsIff(u, p);
    NextGenIsNext(c, i, p, timeout);
    if s.view.coord == i {
      AgreeIff(c, i, p, timeout);
      if gen > 0 && IsNextGen(s, p, gen) {
        NextGenIsUnique(s, p, gen, NextGen(u));
      }
    }
    LastsDiffer(s.accepts, Membership(gen, s.view.clique), Membership(NextGen(u), s.view.clique));
    LastsDiffer(s.accepts, Membership(gen, s.view.clique), Membership(p.view.accepted, s.view.clique));
  }

  lemma LastsDiffer(log: seq<Membership>, m: Membership, n: Membership)
    ensures log + [m] == log + [n] <==> m == n
    ensures log + [m] != log
  {
    assert (log + [m])[|log|] == m && (log + [n])[|log|] == n;
  }

  /** Delivering, exactly. In every run, a supervisor that gets a ping delivers a
      membership if and only if either it is a coordinator in ACCEPT and knows
      that all members have accepted its generation, or it is none and hears a
      node in COMMIT with the membership that it accepted last and has not
      committed. */
  lemma DeliversIff(run: seq<Cluster>, events: seq<Event>, k: nat)
    requires IsRun(run, events) && k < |events| && events[k].Receive?
    ensures |run[k + 1].nodes| == |run[k].nodes| && events[k].node < |run[k].nodes|
    ensures var s, t := run[k].nodes[events[k].node], run[k + 1].nodes[events[k].node];
            && (t.delivered != s.delivered <==> MayDeliver(s, events[k].ping))
            && (MayDeliver(s, events[k].ping) ==>
                  s.accepts != [] && t.delivered == s.delivered + [s.accepts[|s.accepts| - 1]])
  {
    ReceivesOf(run, events, k);
    var c, i, p, timeout := run[k], events[k].node, events[k].ping, events[k].timeout;
    var s, u := c.nodes[i], Noted(c.nodes[i], p, timeout);
    NotedKeepsLogs(s, p, timeout);
    CommitsIff(u, p);
    AcceptedIff(c, i, p, timeout);
  }
}
