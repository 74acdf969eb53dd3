/**
 One supervisor daemon (csupd/src/exa_csupd.c): how its state changes when it
 sends and when it receives a ping.
 */
module Supervision {
  import opened Common
  import opened SupView
  import opened Clique

  /** What the supervisor remembers of another node. */
  datatype NodeInfo = NodeInfo(incarnation: nat, view: View, lastSeen: int)

  datatype Ping = Ping(sender: nat, incarnation: nat, view: View)

  datatype Membership = Membership(gen: nat, clique: set<nat>)

  /** State of the daemon on node self. The known nodes are self and the keys
      of others. accepts and delivered are the histories of accept_clique and
      of sup_deliver. */
  datatype Supervisor = Supervisor(
    self: nat,
    incarnation: nat,
    view: View,
    others: map<nat, NodeInfo>,
    selfChanged: bool,
    otherChanged: bool,
    acceptedClique: set<nat>,
    accepts: seq<Membership>,
    delivered: seq<Membership>)
  {
    function Known(): set<nat> {
      others.Keys + {self}
    }

    function ViewOf(n: nat): View
      requires n in Known()
    {
      if n == self then view else others[n].view
    }

    /** The table the clique is computed from. */
    function Table(): Sight {
      map n | n in Known() :: ViewOf(n).nodesSeen
    }

    predicate IsCoord() {
      view.coord == self
    }

    function HighestGen(): nat {
      if view.accepted > view.committed then view.accepted else view.committed
    }
  }

  /** exa_nodeset_first_at */
  function FirstAt(s: set<nat>, k: nat): (first: nat)
    ensures first < MAX_NODES ==> first in s && k <= first
    ensures forall n | n in s && k <= n < MAX_NODES :: first <= n
    decreases MAX_NODES - k
  {
    if k >= MAX_NODES then MAX_NODES
    else if k in s then k
    else FirstAt(s, k + 1)
  }

  /** The lowest member of a set of nodes; the coordinator of a clique. */
  function First(s: set<nat>): nat {
    FirstAt(s, 0)
  }

  /** sup_check_ping */
  predicate CheckPing(p: Ping) {
    && p.incarnation != 0
    && p.view.state != Unknown
    && p.view.numSeen != 0
    && p.sender in p.view.nodesSeen
  }

  /** What the daemon relies on: it sees itself, its count of nodes seen is
      right, it sees only nodes it knows, and every view it stores contains the
      node it came from. */
  ghost predicate Sound(s: Supervisor) {
    && s.self !in s.others
    && InRange(s.Known())
    && s.incarnation != 0
    && s.self in s.view.nodesSeen
    && Tight(s.view.nodesSeen, s.view.numSeen)
    && s.view.nodesSeen <= s.Known()
    && (forall n | n in s.others :: n in s.others[n].view.nodesSeen)
  }

  // ------------------------------------------------------- start and liveness

  function Started(self: nat, incarnation: nat): Supervisor {
    Supervisor(self, incarnation, Added(INITIAL, self), map[], true, false, {}, [], [])
  }

  function MarkAlive(s: Supervisor, n: nat): (r: Supervisor)
    requires n in s.others
  {
    var r := s.(others := s.others[n := s.others[n].(lastSeen := 0)]);
    if n in s.view.nodesSeen then r
    else r.(view := Added(s.view, n), selfChanged := true)
  }

  function Dead(i: NodeInfo, timeout: int): NodeInfo {
    i.(lastSeen := timeout, view := i.view.(state := Unknown))
  }

  function MarkDead(s: Supervisor, n: nat, timeout: int): (r: Supervisor)
    requires n in s.others
  {
    var r := s.(others := s.others[n := Dead(s.others[n], timeout)]);
    if n !in s.view.nodesSeen then r
    else r.(view := Deleted(s.view, {n}), selfChanged := true)
  }

  function Expired(s: Supervisor, period: int, timeout: int): set<nat> {
    set n | n in s.others && n in s.view.nodesSeen && s.others[n].lastSeen + period >= timeout
  }

  function AgedInfo(i: NodeInfo, period: int, timeout: int): NodeInfo {
    if i.lastSeen + period >= timeout then Dead(i, timeout) else i.(lastSeen := i.lastSeen + period)
  }

  /** update_last_seen: every other node seen ages by one period, and those
      that reach the timeout die. */
  function Aged(s: Supervisor, period: int, timeout: int): (r: Supervisor) {
    var dead := Expired(s, period, timeout);
    s.(others := map n | n in s.others ::
                   if n in s.view.nodesSeen then AgedInfo(s.others[n], period, timeout) else s.others[n],
       view := Deleted(s.view, dead),
       selfChanged := s.selfChanged || dead != {})
  }

  // ------------------------------------------------------------- agreement

  /** Whether all nodes of the clique see the same clique and coordinator. */
  predicate CliqueSeesSelfAsCoord(s: Supervisor) {
    forall n | n in s.view.clique && n < s.view.numSeen ::
      && n in s.view.nodesSeen
      && n in s.Known()
      && s.ViewOf(n).clique == s.view.clique
      && s.ViewOf(n).coord == s.view.coord
  }

  /** Whether all nodes of the clique have accepted generation gen. */
  predicate CliqueHasAccepted(s: Supervisor, gen: nat) {
    forall n | n in s.view.clique && n < s.view.numSeen ::
      && n in s.view.nodesSeen
      && n in s.Known()
      && s.ViewOf(n).clique == s.view.clique
      && s.ViewOf(n).accepted == gen
  }

  /** Highest generation among the nodes seen with an id below k. */
  function MaxGen(s: Supervisor, k: nat): nat {
    if k == 0 then 0
    else
      var g := MaxGen(s, k - 1);
      if k - 1 in s.Known() && k - 1 in s.view.nodesSeen then
        var v := s.ViewOf(k - 1);
        var h := if v.accepted > v.committed then v.accepted else v.committed;
        if h > g then h else g
      else g
  }

  function NextGen(s: Supervisor): nat {
    MaxGen(s, s.view.numSeen) + 1
  }

  function AcceptClique(s: Supervisor, gen: nat): Supervisor {
    s.(view := s.view.(state := Accept, accepted := gen),
       acceptedClique := s.view.clique,
       accepts := s.accepts + [Membership(gen, s.view.clique)])
  }

  function CommitClique(s: Supervisor): Supervisor {
    s.(view := s.view.(state := Commit, committed := s.view.accepted),
       delivered := s.delivered + [Membership(s.view.accepted, s.acceptedClique)])
  }

  /** A member that accepted a membership commits it on seeing it committed. */
  function FollowCommit(s: Supervisor, p: Ping): Supervisor {
    if !s.IsCoord() && p.view.clique == s.acceptedClique && p.view.committed == s.view.accepted
       && p.view.committed > s.view.committed
    then CommitClique(s) else s
  }

  /** state_change_process_ping */
  function InChange(s: Supervisor, p: Ping): Supervisor {
    match p.view.state
    case Unknown => s
    case Change =>
      if s.IsCoord() && CliqueSeesSelfAsCoord(s) then AcceptClique(s, NextGen(s)) else s
    case Accept =>
      if !s.IsCoord() && p.sender == s.view.coord && p.view.clique == s.view.clique
         && p.view.accepted > s.HighestGen()
      then AcceptClique(s, p.view.accepted) else s
    case Commit => FollowCommit(s, p)
  }

  /** state_accept_process_ping */
  function InAccept(s: Supervisor, p: Ping): Supervisor {
    match p.view.state
    case Unknown => s
    case Change => s
    case Accept =>
      if s.IsCoord() && p.view.coord == s.self && p.view.accepted == s.view.accepted
         && CliqueHasAccepted(s, s.view.accepted)
      then CommitClique(s) else s
    case Commit => FollowCommit(s, p)
  }

  /** sup_process_ping, from the switch on the state on. In state COMMIT a ping
      changes nothing; state UNKNOWN is left before the first ping is received. */
  function React(s: Supervisor, p: Ping): Supervisor
    requires s.view.state != Unknown
  {
    match s.view.state
    case Change => InChange(s, p)
    case Accept => InAccept(s, p)
    case Commit => s
  }

  /** update_node_info, after adding the node to the cluster if it is new. */
  function UpdateNodeInfo(s: Supervisor, p: Ping, timeout: int): Supervisor
    requires p.sender != s.self
  {
    var known := if p.sender in s.others then s.others[p.sender] else NodeInfo(0, INITIAL, 0);
    var incaChanged := p.incarnation != known.incarnation;
    var viewChanged := !SameView(p.view, known.view);
    var stored := s.(others := s.others[p.sender := known.(incarnation := p.incarnation, view := p.view)]);
    var marked := if p.sender in s.view.nodesSeen && incaChanged
                  then MarkDead(stored, p.sender, timeout) else MarkAlive(stored, p.sender);
    if incaChanged || viewChanged then marked.(otherChanged := true) else marked
  }

  /** sup_process_ping */
  function ProcessPing(s: Supervisor, p: Ping, timeout: int): Supervisor
    requires CheckPing(p) && s.view.state != Unknown
  {
    React(if p.sender == s.self then s else UpdateNodeInfo(s, p, timeout), p)
  }

  lemma AgedIsSound(s: Supervisor, period: int, timeout: int)
    requires Sound(s)
    ensures Sound(Aged(s, period, timeout))
    ensures Aged(s, period, timeout).Known() == s.Known()
    ensures InRange(Aged(s, period, timeout).Table().Keys) && SelfSeeing(Aged(s, period, timeout).Table())
  {
    var r := Aged(s, period, timeout);
    assert r.others.Keys == s.others.Keys;
    assert r.Table().Keys == r.Known();
  }

  /** Take over a newly computed clique and go to state CHANGE. */
  function WithClique(s: Supervisor, k: set<nat>): Supervisor {
    var v := if k == s.view.clique then s.view else s.view.(clique := k, coord := First(k));
    s.(view := v.(state := Change))
  }

  /** Recompute the clique after a change (second half of sup_pre_ping). */
  function Reclique(s: Supervisor): Supervisor
    requires InRange(s.Table().Keys) && SelfSeeing(s.Table())
  {
    if s.selfChanged || s.otherChanged then WithClique(s, CliqueOf(s.Table(), s.self)) else s
  }

  /** sup_pre_ping */
  function PrePing(s: Supervisor, period: int, timeout: int): Supervisor
    requires Sound(s)
  {
    AgedIsSound(s, period, timeout);
    Reclique(Aged(s, period, timeout))
  }

  /** The ping sent by sup_send_ping. */
  function PingOf(s: Supervisor): Ping {
    Ping(s.self, s.incarnation, s.view)
  }

  /** sup_post_ping */
  function PostPing(s: Supervisor): Supervisor {
    s.(selfChanged := false, otherChanged := false)
  }

  // ----------------------------------------------- what one daemon maintains

  predicate Rising(log: seq<Membership>) {
    forall i, j | 0 <= i < j < |log| :: log[i].gen < log[j].gen
  }

  /** log ends at generation gen, 0 standing for the empty log, and every
      membership of log contains self. */
  predicate LogOf(log: seq<Membership>, gen: nat, self: nat) {
    && Rising(log)
    && (forall i | 0 <= i < |log| :: log[i].gen > 0 && self in log[i].clique)
    && gen == if log == [] then 0 else log[|log| - 1].gen
  }

  /** A member of the clique that is no longer seen has left a mark of change,
      so that the clique is computed again before the next ping. */
  predicate CliqueSound(s: Supervisor) {
    && s.self in s.view.clique
    && s.view.coord == First(s.view.clique)
    && s.view.clique <= s.Known()
    && (s.view.clique <= s.view.nodesSeen || s.selfChanged)
  }

  /** The histories agree with the generations and the clique last accepted. */
  predicate Logged(self: nat, accepts: seq<Membership>, delivered: seq<Membership>,
                   accepted: nat, committed: nat, clique: set<nat>) {
    && committed <= accepted
    && LogOf(accepts, accepted, self)
    && (accepts != [] ==> accepts[|accepts| - 1].clique == clique)
    && LogOf(delivered, committed, self)
    && (forall d | d in delivered :: d in accepts)
  }

  predicate LogsSound(s: Supervisor) {
    Logged(s.self, s.accepts, s.delivered, s.view.accepted, s.view.committed, s.acceptedClique)
  }

  predicate StateSound(s: Supervisor) {
    && (s.view.state == Unknown ==> s.selfChanged && s.view.clique == {} && s.view.accepted == 0)
    && (s.view.state != Unknown ==> CliqueSound(s))
    && (s.view.state == Accept ==> s.acceptedClique == s.view.clique && s.view.committed < s.view.accepted)
  }

  ghost predicate Inv(s: Supervisor) {
    Sound(s) && StateSound(s) && LogsSound(s)
  }

  lemma StartedKeepsInv(self: nat, incarnation: nat)
    requires self < MAX_NODES && incarnation != 0
    ensures Inv(Started(self, incarnation))
  {
  }

  lemma WithCliqueKeepsInv(a: Supervisor, k: set<nat>)
    requires Sound(a) && LogsSound(a) && a.self in k && k <= a.view.nodesSeen
    requires a.view.clique == {} || a.view.coord == First(a.view.clique)
    ensures Inv(PostPing(WithClique(a, k)))
  {
    var r := PostPing(WithClique(a, k));
    assert r.Known() == a.Known();
  }

  /** Sending a ping keeps the invariant, and the ping sent passes the check that sender and receivers assert. */
  lemma SendKeepsInv(s: Supervisor, period: int, timeout: int)
    requires Inv(s)
    ensures Inv(PostPing(PrePing(s, period, timeout)))
    ensures CheckPing(PingOf(PrePing(s, period, timeout)))
    ensures PrePing(s, period, timeout).view.state == Accept ==> PrePing(s, period, timeout).view.clique == s.acceptedClique
  {
    AgedIsSound(s, period, timeout);
    var a := Aged(s, period, timeout);
    if a.selfChanged || a.otherChanged {
      CliqueIsSeen(a.Table(), a.self);
      WithCliqueKeepsInv(a, CliqueOf(a.Table(), a.self));
    } else {
      AgedUnchanged(s, period, timeout);
    }
  }

  /** What sending a ping leaves alone. */
  lemma SendKeepsRest(s: Supervisor, period: int, timeout: int)
    requires Sound(s)
    ensures PrePing(s, period, timeout).self == s.self
    ensures PrePing(s, period, timeout).incarnation == s.incarnation
    ensures PrePing(s, period, timeout).others == Aged(s, period, timeout).others
    ensures PrePing(s, period, timeout).accepts == s.accepts
    ensures PrePing(s, period, timeout).delivered == s.delivered
    ensures PrePing(s, period, timeout).view.accepted == s.view.accepted
    ensures PrePing(s, period, timeout).view.committed == s.view.committed
  {
  }

  lemma AgedUnchanged(s: Supervisor, period: int, timeout: int)
    requires Inv(s) && !Aged(s, period, timeout).selfChanged
    ensures Aged(s, period, timeout).view == s.view
    ensures Inv(PostPing(Aged(s, period, timeout)))
  {
    AgedIsSound(s, period, timeout);
    assert Expired(s, period, timeout) == {};
  }

  /** What update_node_info stores of the sender, and leaves alone of the rest. */
  lemma UpdateStores(s: Supervisor, p: Ping, timeout: int)
    requires p.sender != s.self
    ensures var r := UpdateNodeInfo(s, p, timeout);
            && r.others.Keys == s.others.Keys + {p.sender}
            && r.others[p.sender].incarnation == p.incarnation
            && r.others[p.sender].view == p.view.(state := r.others[p.sender].view.state)
            && (forall n | n in s.others && n != p.sender :: r.others[n] == s.others[n])
  {
  }

  lemma AliveKeepsSound(s: Supervisor, n: nat)
    requires Sound(s) && n in s.others && n < MAX_NODES
    ensures Sound(MarkAlive(s, n)) && MarkAlive(s, n).Known() == s.Known()
  {
    assert MarkAlive(s, n).others.Keys == s.others.Keys;
  }

  lemma DeadKeepsSound(s: Supervisor, n: nat, timeout: int)
    requires Sound(s) && n in s.others
    ensures Sound(MarkDead(s, n, timeout)) && MarkDead(s, n, timeout).Known() == s.Known()
  {
    assert MarkDead(s, n, timeout).others.Keys == s.others.Keys;
  }

  lemma UpdateKeepsSound(s: Supervisor, p: Ping, timeout: int)
    requires Sound(s) && CheckPing(p) && p.sender != s.self && p.sender < MAX_NODES
    ensures Sound(UpdateNodeInfo(s, p, timeout))
    ensures UpdateNodeInfo(s, p, timeout).Known() == s.Known() + {p.sender}
  {
    var known := if p.sender in s.others then s.others[p.sender] else NodeInfo(0, INITIAL, 0);
    var stored := s.(others := s.others[p.sender := known.(incarnation := p.incarnation, view := p.view)]);
    assert stored.Known() == s.Known() + {p.sender};
    AliveKeepsSound(stored, p.sender);
    DeadKeepsSound(stored, p.sender, timeout);
  }

  /** No node goes out of sight, unless one that is seen has restarted, which
      leaves a mark of change. */
  lemma UpdateKeepsSight(s: Supervisor, p: Ping, timeout: int)
    requires Sound(s) && p.sender != s.self
    ensures var r := UpdateNodeInfo(s, p, timeout);
            && (s.selfChanged ==> r.selfChanged)
            && if p.sender in s.view.nodesSeen && s.others[p.sender].incarnation != p.incarnation then r.selfChanged
               else s.view.nodesSeen <= r.view.nodesSeen
  {
  }

  lemma UpdateKeepsInv(s: Supervisor, p: Ping, timeout: int)
    requires Inv(s) && CheckPing(p) && p.sender != s.self && p.sender < MAX_NODES && s.view.state != Unknown
    ensures Inv(UpdateNodeInfo(s, p, timeout)) && UpdateNodeInfo(s, p, timeout).view.state == s.view.state
  {
    UpdateKeepsSound(s, p, timeout);
    UpdateKeepsSight(s, p, timeout);
    var r := UpdateNodeInfo(s, p, timeout);
    assert r.view == s.view.(nodesSeen := r.view.nodesSeen, numSeen := r.view.numSeen);
    assert StateSound(r);
  }

  lemma {:induction false} MaxGenBounds(s: Supervisor, k: nat, n: nat)
    requires n < k && n in s.Known() && n in s.view.nodesSeen
    ensures s.ViewOf(n).accepted <= MaxGen(s, k) && s.ViewOf(n).committed <= MaxGen(s, k)
  {
    if n < k - 1 { MaxGenBounds(s, k - 1, n); }
  }

  /** A proposal is newer than anything that a node seen by the proposer, the
      proposer included, accepted or committed as far as the proposer knows. */
  lemma NextGenIsNew(s: Supervisor, n: nat)
    requires Sound(s) && n in s.view.nodesSeen
    ensures n in s.Known() && NextGen(s) > s.ViewOf(n).accepted && NextGen(s) > s.ViewOf(n).committed
  {
    MaxGenBounds(s, s.view.numSeen, n);
  }

  lemma AcceptKeepsInv(s: Supervisor, gen: nat)
    requires Inv(s) && s.view.state != Unknown && gen > s.view.accepted && gen > s.view.committed
    ensures Inv(AcceptClique(s, gen))
  {
    forall d | d in s.delivered ensures d in AcceptClique(s, gen).accepts {
      assert d in s.accepts;
    }
  }

  lemma CommitKeepsInv(s: Supervisor)
    requires Inv(s) && s.view.state != Unknown && s.view.accepted > s.view.committed
    ensures Inv(CommitClique(s))
  {
    var m := Membership(s.view.accepted, s.acceptedClique);
    assert s.accepts[|s.accepts| - 1] == m;
    assert m in s.accepts;
  }

  lemma FollowKeepsInv(s: Supervisor, p: Ping)
    requires Inv(s) && s.view.state != Unknown
    ensures Inv(FollowCommit(s, p))
  {
    if FollowCommit(s, p) != s {
      CommitKeepsInv(s);
    }
  }

  lemma ReactKeepsInv(s: Supervisor, p: Ping)
    requires Inv(s) && s.view.state != Unknown
    ensures Inv(React(s, p))
  {
    FollowKeepsInv(s, p);
    if s.view.state == Accept {
      CommitKeepsInv(s);
    } else if s.view.state == Change && p.view.state == Change {
      NextGenIsNew(s, s.self);
      AcceptKeepsInv(s, NextGen(s));
    } else if s.view.state == Change && p.view.state == Accept && p.view.accepted > s.HighestGen() {
      AcceptKeepsInv(s, p.view.accepted);
    }
  }

  /** Receiving a ping keeps the invariant. */
  lemma ReceiveKeepsInv(s: Supervisor, p: Ping, timeout: int)
    requires Inv(s) && s.view.state != Unknown && CheckPing(p) && p.sender < MAX_NODES
    ensures Inv(ProcessPing(s, p, timeout))
  {
    var t := s;
    if p.sender != s.self {
      UpdateKeepsInv(s, p, timeout);
      t := UpdateNodeInfo(s, p, timeout);
    }
    ReactKeepsInv(t, p);
  }
}
