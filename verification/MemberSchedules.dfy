/**
 Schedules of the members of one clique (csupd/src/exa_csupd.c): the members
 send and receive pings, while no node comes into sight or goes out of sight.
 */
module MemberSchedules {
  import opened Common
  import opened Clique
  import opened SupView
  import opened Supervision
  import opened SupervisorPaths
  import opened Agreement

  /** What the members of a clique have in common, and the constants of the
      program. */
  datatype Setting = Setting(table: Sight, clique: set<nat>, period: int, timeout: int)
  {
    function Coord(): nat {
      First(clique)
    }
  }

  ghost predicate Good(x: Setting) {
    && InRange(x.table.Keys) && SelfSeeing(x.table) && x.period >= 0
    && x.clique <= x.table.Keys && x.Coord() in x.clique
    && (forall i {:trigger CliqueOf(x.table, i)} | i in x.clique :: CliqueOf(x.table, i) == x.clique)
  }

  /** No node that s sees is lost within the given time. */
  predicate Spare(s: Supervisor, timeout: int, time: int) {
    && 0 <= time < timeout
    && (forall n | n in s.others && n in s.view.nodesSeen :: s.others[n].lastSeen + time < timeout)
  }

  ghost predicate Member(s: Supervisor, x: Setting) {
    && Inv(s) && s.self in x.clique && s.Table() == x.table
    && (s.view.state != Unknown && !Marked(s) ==> s.view.clique == x.clique)
  }

  // ------------------------------------------------------------- one member

  /** What the table of a member says of itself and of another member. */
  lemma SeesMember(s: Supervisor, x: Setting, n: nat)
    requires Good(x) && Sound(s) && s.self in x.clique && s.Table() == x.table && n in x.clique
    ensures n in s.view.nodesSeen && n in s.Known() && s.ViewOf(n).nodesSeen == x.table[n]
  {
    MembersSee(x, s.self);
    TableTells(s, n);
    TableTells(s, s.self);
  }

  lemma MembersSee(x: Setting, i: nat)
    requires Good(x) && i in x.clique
    ensures x.clique <= x.table[i]
  {
    CliqueIsSeen(x.table, i);
  }

  lemma TableTells(s: Supervisor, n: nat)
    ensures n in s.Known() <==> n in s.Table()
    ensures n in s.Known() ==> s.Table()[n] == s.ViewOf(n).nodesSeen
  {
  }

  /** t is s with other times, and without marks. */
  predicate OnlyTimes(s: Supervisor, t: Supervisor) {
    && t == s.(others := t.others, view := t.view, selfChanged := false, otherChanged := false)
    && t.others.Keys == s.others.Keys
    && (forall n | n in s.others :: t.others[n] == s.others[n].(lastSeen := t.others[n].lastSeen))
  }

  /** A member that sends takes over the clique, and announces a change if it has
      a mark of one. */
  predicate SendsAs(s: Supervisor, x: Setting, t: Supervisor) {
    && OnlyTimes(s, t) && !Marked(t)
    && t.view == s.view.(state := if Marked(s) then Change else s.view.state, clique := x.clique, coord := x.Coord())
    && t.view.state != Unknown
  }

  lemma NobodyExpires(s: Supervisor, x: Setting, time: int)
    requires Sound(s) && Spare(s, x.timeout, time) && 0 <= x.period <= time
    ensures var a := Aged(s, x.period, x.timeout);
            && a == s.(others := a.others) && a.others.Keys == s.others.Keys
            && (forall n | n in s.others :: a.others[n] == s.others[n].(lastSeen := a.others[n].lastSeen))
            && Spare(a, x.timeout, time - x.period)
  {
    assert Expired(s, x.period, x.timeout) == {};
    assert s.view.nodesSeen - {} == s.view.nodesSeen;
    TightIsUnique(s.view.nodesSeen, s.view.numSeen, Shrunk(s.view.nodesSeen, s.view.numSeen));
  }

  lemma MarkedSend(a: Supervisor, x: Setting)
    requires Good(x) && a.Table() == x.table && a.self in x.clique && Marked(a)
    requires a.view.clique == {} || a.view.coord == First(a.view.clique)
    ensures SendsAs(a, x, PostPing(Reclique(a)))
  {
    assert CliqueOf(x.table, a.self) == x.clique;
  }

  lemma MemberSends(s: Supervisor, x: Setting, time: int, t: Supervisor)
    requires Good(x) && Member(s, x) && Spare(s, x.timeout, time) && x.period <= time
             && Makes(s, Sent(x.period, x.timeout), t)
    ensures Member(t, x) && Spare(t, x.timeout, time - x.period) && SendsAs(s, x, t)
  {
    var a := Aged(s, x.period, x.timeout);
    AgedIsSound(s, x.period, x.timeout);
    NobodyExpires(s, x, time);
    SameTable(s, a);
    MakesKeepsInv(s, Sent(x.period, x.timeout), t);
    assert t == PostPing(Reclique(a));
    if Marked(a) {
      MarkedSend(a, x);
    } else {
      assert t == PostPing(a);
    }
    SameTable(a, t);
  }

  /** p was sent by another member. */
  predicate FromMember(p: Ping, x: Setting) {
    && CheckPing(p) && p.sender in x.clique && p.sender in x.table && p.view.nodesSeen == x.table[p.sender]
  }

  /** s when it has stored what p tells. */
  function Stored(s: Supervisor, p: Ping): Supervisor
    requires p.sender in s.others
  {
    s.(others := s.others[p.sender := NodeInfo(p.incarnation, p.view, 0)],
       otherChanged := s.otherChanged || s.others[p.sender].view.coord != p.view.coord)
  }

  lemma NotesPing(s: Supervisor, p: Ping, timeout: int)
    requires p.sender != s.self && p.sender in s.others && p.sender in s.view.nodesSeen
    requires s.others[p.sender].incarnation == p.incarnation
    requires s.others[p.sender].view.nodesSeen == p.view.nodesSeen
    ensures UpdateNodeInfo(s, p, timeout) == Stored(s, p)
  {
    assert s.others[p.sender := s.others[p.sender].(incarnation := p.incarnation, view := p.view)]
             [p.sender := NodeInfo(p.incarnation, p.view, 0)]
        == s.others[p.sender := NodeInfo(p.incarnation, p.view, 0)];
  }

  /** A member that gets a ping of another stores what it tells, and reacts. */
  lemma MemberGets(s: Supervisor, x: Setting, time: int, p: Ping, t: Supervisor)
    requires Good(x) && Member(s, x) && Spare(s, x.timeout, time) && FromMember(p, x) && p.sender != s.self
    requires Makes(s, Got(p, x.timeout), t)
    requires p.sender in s.others && s.others[p.sender].incarnation == p.incarnation
    ensures Member(t, x) && Spare(t, x.timeout, time) && t == React(Stored(s, p), p)
    ensures Inv(Stored(s, p))
  {
    SeesMember(s, x, p.sender);
    NotesPing(s, p, x.timeout);
    assert p.sender < MAX_NODES;
    UpdateKeepsInv(s, p, x.timeout);
    GotKeepsMember(s, x, time, p, t);
  }

  lemma GotKeepsMember(s: Supervisor, x: Setting, time: int, p: Ping, t: Supervisor)
    requires Member(s, x) && Spare(s, x.timeout, time) && Makes(s, Got(p, x.timeout), t)
    requires p.sender != s.self ==> p.sender in s.others && UpdateNodeInfo(s, p, x.timeout) == Stored(s, p)
    requires p.sender != s.self ==> s.others[p.sender].view.nodesSeen == p.view.nodesSeen
    ensures Member(t, x) && Spare(t, x.timeout, time)
  {
    MakesKeepsInv(s, Got(p, x.timeout), t);
    GotMarks(s, p, x.timeout, t);
    GotIsNoted(s, p, x.timeout, t);
    StaysMember(s, x, time, t);
  }

  lemma StaysMember(s: Supervisor, x: Setting, time: int, t: Supervisor)
    requires Member(s, x) && Spare(s, x.timeout, time) && Inv(t) && s.view.state != Unknown
             && t.view.clique == s.view.clique
    requires Marked(s) ==> Marked(t)
    requires t.self == s.self && t.others.Keys == s.others.Keys && t.view.nodesSeen == s.view.nodesSeen
    requires forall n | n in s.others ::
               && t.others[n].view.nodesSeen == s.others[n].view.nodesSeen
               && (t.others[n].lastSeen == s.others[n].lastSeen || t.others[n].lastSeen == 0)
    ensures Member(t, x) && Spare(t, x.timeout, time)
  {
    SameTable(s, t);
  }

  lemma OwnPing(s: Supervisor, x: Setting, time: int, p: Ping, t: Supervisor)
    requires Member(s, x) && Spare(s, x.timeout, time) && p.sender == s.self && Makes(s, Got(p, x.timeout), t)
    ensures Member(t, x) && Spare(t, x.timeout, time) && t == React(s, p)
  {
    GotKeepsMember(s, x, time, p, t);
  }

  // --------------------------------------------------------------- schedules

  /** Members send with the period of the program, and receive with its timeout. */
  predicate Timed(e: Event, x: Setting) {
    match e
    case Send(i, period, timeout) => i in x.clique && period == x.period && timeout == x.timeout
    case Receive(i, _, timeout) => i in x.clique && timeout == x.timeout
  }

  /** One step of members, in which no member comes to see other nodes or learns
      that a node does. */
  ghost predicate StepIn(c: Cluster, x: Setting, e: Event, d: Cluster) {
    && Timed(e, x) && Next(c, e, d)
    && (forall i | 0 <= i < |c.nodes| && i in x.clique :: d.nodes[i].Table() == c.nodes[i].Table())
  }

  datatype History = History(run: seq<Cluster>, events: seq<Event>)
  {
    function Now(): Cluster
      requires run != []
    {
      run[|run| - 1]
    }
  }

  ghost predicate IsSchedule(h: History, x: Setting) {
    && |h.run| == |h.events| + 1
    && (forall i {:trigger h.events[i]} | 0 <= i < |h.events| :: StepIn(h.run[i], x, h.events[i], h.run[i + 1]))
  }

  /** g goes on where h ends. */
  ghost predicate GoesOn(h: History, g: History, x: Setting) {
    IsSchedule(g, x) && h.run != [] && g.run[0] == h.run[0]
  }

  lemma Grow(h: History, x: Setting, e: Event, d: Cluster) returns (g: History)
    requires IsSchedule(h, x) && StepIn(h.Now(), x, e, d)
    ensures GoesOn(h, g, x) && g.Now() == d
  {
    g := History(h.run + [d], h.events + [e]);
    forall i | 0 <= i < |g.events| ensures StepIn(g.run[i], x, g.events[i], g.run[i + 1]) {
      if i < |h.events| {
        assert StepIn(h.run[i], x, h.events[i], h.run[i + 1]);
      }
    }
  }

  /** Member s sends p and becomes t. */
  ghost predicate Sends(s: Supervisor, x: Setting, p: Ping, t: Supervisor) {
    && Sound(s)
    && p == PingOf(PrePing(s, x.period, x.timeout)) && t == PostPing(PrePing(s, x.period, x.timeout))
  }

  lemma SendMakes(s: Supervisor, x: Setting, time: int) returns (p: Ping, t: Supervisor)
    requires Good(x) && Member(s, x) && Spare(s, x.timeout, time) && x.period <= time
    ensures Sends(s, x, p, t)
    ensures Member(t, x) && Spare(t, x.timeout, time - x.period) && SendsAs(s, x, t)
    ensures p == Ping(s.self, s.incarnation, t.view) && FromMember(p, x)
  {
    p := PingOf(PrePing(s, x.period, x.timeout));
    t := PostPing(PrePing(s, x.period, x.timeout));
    MemberSends(s, x, time, t);
    SendKeepsInv(s, x.period, x.timeout);
    SeesMember(t, x, s.self);
  }

  lemma StepOfSend(c: Cluster, x: Setting, i: nat, p: Ping, t: Supervisor)
    requires i < |c.nodes| && i in x.clique && Sends(c.nodes[i], x, p, t) && t.Table() == c.nodes[i].Table()
    ensures StepIn(c, x, Send(i, x.period, x.timeout), Cluster(c.nodes[i := t], c.sent + {p}))
  {
  }

  /** s when it has stored what p tells, unless it is its own ping. */
  function Noting(s: Supervisor, p: Ping): Supervisor
    requires p.sender != s.self ==> p.sender in s.others
  {
    if p.sender == s.self then s else Stored(s, p)
  }

  /** Member s, which knows the sender, reacts to p when it has stored it. */
  ghost predicate Hears(s: Supervisor, p: Ping, t: Supervisor) {
    && s.view.state != Unknown
    && (p.sender != s.self ==> p.sender in s.others)
    && Inv(Noting(s, p)) && t == React(Noting(s, p), p)
  }

  predicate KnowsSender(s: Supervisor, p: Ping) {
    p.sender != s.self ==> p.sender in s.others && s.others[p.sender].incarnation == p.incarnation
  }

  lemma ReceiveMakes(s: Supervisor, x: Setting, time: int, p: Ping) returns (t: Supervisor)
    requires Good(x) && Member(s, x) && Spare(s, x.timeout, time) && s.view.state != Unknown
    requires FromMember(p, x) && KnowsSender(s, p)
    ensures t == ProcessPing(s, p, x.timeout)
    ensures Member(t, x) && Spare(t, x.timeout, time) && Hears(s, p, t)
  {
    t := ProcessPing(s, p, x.timeout);
    assert p.sender < MAX_NODES;
    if p.sender == s.self {
      OwnPing(s, x, time, p, t);
    } else {
      MemberGets(s, x, time, p, t);
    }
  }

  lemma StepOfReceive(c: Cluster, x: Setting, i: nat, p: Ping, t: Supervisor)
    requires i < |c.nodes| && i in x.clique && p in c.sent && CheckPing(p) && c.nodes[i].view.state != Unknown
    requires t == ProcessPing(c.nodes[i], p, x.timeout) && t.Table() == c.nodes[i].Table()
    ensures StepIn(c, x, Receive(i, p, x.timeout), Cluster(c.nodes[i := t], c.sent))
  {
  }

  // --------------------------------------------------------- all the members

  /** All nodes of the clique are members, and know who the others are. */
  ghost predicate Team(c: Cluster, x: Setting) {
    && Good(x)
    && (forall i | i in x.clique :: i < |c.nodes|)
    && (forall i {:trigger InTeam(c, x, i)} | i in x.clique :: InTeam(c, x, i))
  }

  ghost predicate InTeam(c: Cluster, x: Setting, i: nat)
    requires i < |c.nodes| && forall j | j in x.clique :: j < |c.nodes|
  {
    c.nodes[i].self == i && Member(c.nodes[i], x) && KnowsTeam(c, x, i)
  }

  predicate KnowsTeam(c: Cluster, x: Setting, i: nat)
    requires i < |c.nodes| && forall j | j in x.clique :: j < |c.nodes|
  {
    forall j | j in x.clique && j != i ::
      j in c.nodes[i].others && c.nodes[i].others[j].incarnation == c.nodes[j].incarnation
  }

  predicate KeepsNames(s: Supervisor, t: Supervisor) {
    && t.self == s.self && t.incarnation == s.incarnation
    && (forall j | j in s.others :: j in t.others && t.others[j].incarnation == s.others[j].incarnation)
  }

  lemma TeamStays(c: Cluster, x: Setting, i: nat, t: Supervisor, d: Cluster)
    requires Team(c, x) && i in x.clique && d.nodes == c.nodes[i := t] && Member(t, x) && KeepsNames(c.nodes[i], t)
    ensures Team(d, x)
  {
    assert InTeam(c, x, i);
    forall j | j in x.clique ensures InTeam(d, x, j) {
      assert InTeam(c, x, j);
      StaysInTeam(c, x, i, t, d, j);
    }
  }

  lemma StaysInTeam(c: Cluster, x: Setting, i: nat, t: Supervisor, d: Cluster, j: nat)
    requires (forall n | n in x.clique :: n < |c.nodes|) && i in x.clique && j in x.clique
    requires InTeam(c, x, i) && InTeam(c, x, j)
    requires d.nodes == c.nodes[i := t] && Member(t, x) && KeepsNames(c.nodes[i], t)
    ensures InTeam(d, x, j)
  {
  }

  /** A schedule of the team, and one that goes on from it. */
  ghost predicate Plays(h: History, x: Setting) {
    IsSchedule(h, x) && Team(h.Now(), x)
  }

  ghost predicate PlaysOn(h: History, g: History, x: Setting) {
    GoesOn(h, g, x) && Team(g.Now(), x)
  }

  /** Member i sends. */
  lemma DoSend(h: History, x: Setting, i: nat, time: int) returns (g: History, p: Ping, t: Supervisor)
    requires Plays(h, x) && i in x.clique
    requires Spare(h.Now().nodes[i], x.timeout, time) && x.period <= time
    ensures PlaysOn(h, g, x) && g.Now() == Cluster(h.Now().nodes[i := t], h.Now().sent + {p})
    ensures Spare(t, x.timeout, time - x.period) && SendsAs(h.Now().nodes[i], x, t)
    ensures p == Ping(i, t.incarnation, t.view) && FromMember(p, x)
  {
    assert InTeam(h.Now(), x, i);
    p, t := SendMakes(h.Now().nodes[i], x, time);
    StepOfSend(h.Now(), x, i, p, t);
    g := Grow(h, x, Send(i, x.period, x.timeout), Cluster(h.Now().nodes[i := t], h.Now().sent + {p}));
    TeamStays(h.Now(), x, i, t, g.Now());
  }

  /** Member i gets ping p of a member. */
  lemma DoReceive(h: History, x: Setting, i: nat, time: int, p: Ping) returns (g: History, t: Supervisor)
    requires Plays(h, x) && i in x.clique && Spare(h.Now().nodes[i], x.timeout, time)
    requires h.Now().nodes[i].view.state != Unknown && p in h.Now().sent
    requires FromMember(p, x) && h.Now().nodes[p.sender].incarnation == p.incarnation
    ensures PlaysOn(h, g, x) && g.Now() == Cluster(h.Now().nodes[i := t], h.Now().sent)
    ensures Spare(t, x.timeout, time) && Hears(h.Now().nodes[i], p, t) && KeepsNames(h.Now().nodes[i], t)
  {
    var s := h.Now().nodes[i];
    assert InTeam(h.Now(), x, i);
    assert p.sender != i ==> p.sender in s.others && s.others[p.sender].incarnation == p.incarnation;
    t := ReceiveMakes(s, x, time, p);
    StepOfReceive(h.Now(), x, i, p, t);
    g := Grow(h, x, Receive(i, p, x.timeout), Cluster(h.Now().nodes[i := t], h.Now().sent));
    HearsKeepsNames(s, p, t);
    TeamStays(h.Now(), x, i, t, g.Now());
  }

  lemma HearsKeepsNames(s: Supervisor, p: Ping, t: Supervisor)
    requires Hears(s, p, t) && (p.sender != s.self ==> s.others[p.sender].incarnation == p.incarnation)
    ensures KeepsNames(s, t)
  {
    ReactKeepsRest(Noting(s, p), p);
  }
}
