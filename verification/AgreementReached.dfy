/**
 Exactly when the members of a clique come to agree on it
 (csupd/src/exa_csupd.c), in any state of any run in which they hold equal
 tables and each other's views.
 */
module AgreementReached {
  import opened Common
  import opened Clique
  import opened SupView
  import opened Supervision
  import opened SupervisorPaths
  import opened Agreement
  import opened MemberSchedules
  import opened AgreementProgress

  /** The members hold equal tables and each other's views, and no node is about
      to be lost. */
  ghost predicate Settled(c: Cluster, x: Setting) {
    && Good(x) && InRangeOf(c, x)
    && (forall i | i in x.clique :: c.nodes[i].Table() == x.table && Spare(c.nodes[i], x.timeout, 5 * x.period))
    && (forall i, j | i in x.clique && j in x.clique && i != j ::
          j in c.nodes[i].others && c.nodes[i].others[j].view == c.nodes[j].view)
  }

  /** All members have delivered a membership that none had accepted in c. */
  predicate AgreedOn(c: Cluster, d: Cluster, x: Setting, gen: nat) {
    forall i | i in x.clique ::
      && i < |c.nodes| && i < |d.nodes|
      && LastIs(d.nodes[i].delivered, Membership(gen, x.clique)) && Membership(gen, x.clique) !in c.nodes[i].accepts
  }

  /** The members go on from c, with the pings that they send from now on. */
  ghost predicate StartsAt(h: History, c: Cluster, x: Setting) {
    IsSchedule(h, x) && h.run[0] == Cluster(c.nodes, {})
  }

  ghost predicate CanAgree(c: Cluster, x: Setting) {
    exists h: History, gen: nat :: StartsAt(h, c, x) && AgreedOn(c, h.Now(), x, gen)
  }

  /** Member i is in state CHANGE, is marked, or will be told of another
      coordinator. */
  predicate CanMove(c: Cluster, x: Setting, i: nat)
    requires InRangeOf(c, x) && i in x.clique
  {
    || Movable(c.nodes[i])
    || exists j | j in x.clique && j != i :: c.nodes[j].view.coord != x.Coord()
  }

  // ----------------------------------------------------------- runs are current

  lemma StepIsMade(c: Cluster, e: Agreement.Event, d: Cluster) returns (step: Step)
    requires ClusterInv(c) && Next(c, e, d)
    ensures Makes(c.nodes[e.node], step, d.nodes[e.node])
    ensures forall i | 0 <= i < |c.nodes| && i != e.node :: d.nodes[i] == c.nodes[i]
  {
    match e {
      case Send(i, period, timeout) => step := Sent(period, timeout);
      case Receive(i, p, timeout) =>
        assert PingTrue(c.nodes, p);
        step := Got(p, timeout);
    }
  }

  lemma MakesIsCurrent(s: Supervisor, step: Step, t: Supervisor)
    requires Inv(s) && Current(s) && Makes(s, step, t)
    ensures Inv(t) && Current(t)
  {
    MakesKeepsInv(s, step, t);
    match step {
      case Sent(period, timeout) => SentIsCurrent(s, period, timeout, t);
      case Got(p, timeout) => GotIsCurrent(s, p, timeout, t);
    }
  }

  lemma {:induction false} RunIsCurrent(run: seq<Cluster>, events: seq<Agreement.Event>, n: nat, i: nat)
    requires IsRun(run, events) && n < |run| && i < |run[n].nodes|
    ensures Inv(run[n].nodes[i]) && Current(run[n].nodes[i])
  {
    if n == 0 {
      StartIsCurrent(run[0], i);
    } else {
      SameNodes(run, events, n - 1);
      RunIsCurrent(run, events, n - 1, i);
      RunStepIsCurrent(run, events, n - 1, i);
    }
  }

  lemma StartIsCurrent(c: Cluster, i: nat)
    requires Agreement.IsInit(c) && i < |c.nodes|
    ensures Inv(c.nodes[i]) && Current(c.nodes[i])
  {
    StartedKeepsInv(i, c.nodes[i].incarnation);
  }

  lemma SameNodes(run: seq<Cluster>, events: seq<Agreement.Event>, n: nat)
    requires IsRun(run, events) && n < |events|
    ensures |run[n + 1].nodes| == |run[n].nodes|
  {
    assert Next(run[n], events[n], run[n + 1]);
  }

  lemma RunStepIsCurrent(run: seq<Cluster>, events: seq<Agreement.Event>, n: nat, i: nat)
    requires IsRun(run, events) && n < |events| && i < |run[n].nodes| && i < |run[n + 1].nodes|
    requires Inv(run[n].nodes[i]) && Current(run[n].nodes[i])
    ensures Inv(run[n + 1].nodes[i]) && Current(run[n + 1].nodes[i])
  {
    RunKeepsInv(run, events, n);
    StepIsCurrent(run[n], events[n], run[n + 1], i);
  }

  lemma StepIsCurrent(c: Cluster, e: Agreement.Event, d: Cluster, i: nat)
    requires ClusterInv(c) && Next(c, e, d) && i < |c.nodes| && Inv(c.nodes[i]) && Current(c.nodes[i])
    ensures Inv(d.nodes[i]) && Current(d.nodes[i])
  {
    var step := StepIsMade(c, e, d);
    if i == e.node {
      MakesIsCurrent(c.nodes[i], step, d.nodes[i]);
    }
  }

  lemma CurrentIsMember(s: Supervisor, x: Setting)
    requires Good(x) && Inv(s) && Current(s) && s.self in x.clique && s.Table() == x.table
    ensures Member(s, x)
  {
    assert CliqueOf(x.table, s.self) == x.clique;
  }

  lemma SettledIsTeam(run: seq<Cluster>, events: seq<Agreement.Event>, n: nat, x: Setting)
    requires IsRun(run, events) && n < |run| && Settled(run[n], x)
    ensures Team(Cluster(run[n].nodes, {}), x)
    ensures Ready(Cluster(run[n].nodes, {}), x, run[n].nodes, 5 * x.period)
  {
    var c := run[n];
    var d := Cluster(c.nodes, {});
    RunKeepsInv(run, events, n);
    forall i | i in x.clique ensures InTeam(d, x, i) {
      assert Agreement.NodeOk(c, i);
      RunIsCurrent(run, events, n, i);
      CurrentIsMember(c.nodes[i], x);
    }
    forall i | i in x.clique
      ensures c.nodes[i].self == i && (i != x.Coord() ==> KnowsGens(c.nodes[x.Coord()], c.nodes[i]))
    {
      assert Agreement.NodeOk(c, i);
    }
  }

  // ------------------------------------------------------- members that can move

  lemma LessTime(c: Cluster, x: Setting, base: seq<Supervisor>)
    requires Ready(c, x, base, 5 * x.period) && x.period >= 0
    ensures Ready(c, x, base, 4 * x.period)
  {
  }

  /** A member with another coordinator is marked. */
  lemma OtherCoordIsMarked(s: Supervisor, x: Setting)
    requires Member(s, x) && s.view.coord != x.Coord()
    ensures Movable(s)
  {
  }

  lemma SentIsStirred(c: Cluster, x: Setting, base: seq<Supervisor>, j: nat, p: Ping, t: Supervisor, d: Cluster)
    requires Ready(c, x, base, 5 * x.period) && x.period >= 0 && j in x.clique && Movable(c.nodes[j])
    requires SendsAs(c.nodes[j], x, t) && Spare(t, x.timeout, 4 * x.period) && p == Ping(j, t.incarnation, t.view)
    requires FromMember(p, x) && d == Cluster(c.nodes[j := t], c.sent + {p})
    requires forall i | i in x.clique && i != j && !Movable(c.nodes[i]) ::
               c.nodes[i].view.state != Unknown && j in c.nodes[i].others && c.nodes[i].others[j].view.coord != x.Coord()
    ensures Stirring(d, x, base, j, p, {})
  {
    LessTime(c, x, base);
    ReadyWith(c, x, base, 4 * x.period, j, t, d);
  }

  lemma NeverUnknown(s: Supervisor)
    requires Inv(s) && !Movable(s)
    ensures s.view.state != Unknown
  {
  }

  /** Members that can move, or are told of another coordinator, agree. */
  lemma CanMoveAgrees(run: seq<Cluster>, events: seq<Agreement.Event>, n: nat, x: Setting)
    returns (h: History, gen: nat)
    requires IsRun(run, events) && n < |run| && Settled(run[n], x)
    requires forall i | i in x.clique :: CanMove(run[n], x, i)
    ensures StartsAt(h, run[n], x) && AgreedOn(run[n], h.Now(), x, gen)
  {
    var base := run[n].nodes;
    var start := History([Cluster(base, {})], []);
    SettledIsTeam(run, events, n, x);
    var ready := start;
    if AllMovable(start.Now(), x) {
      LessTime(start.Now(), x, base);
    } else {
      ready := Stir(run[n], x, start);
    }
    h, gen := MovableAgree(ready, x, base);
  }

  /** A member with another coordinator sends, and those that cannot move get its
      ping. */
  lemma Stir(c: Cluster, x: Setting, start: History) returns (g: History)
    requires IsSchedule(start, x) && start.Now() == Cluster(c.nodes, {}) && Settled(c, x) && Team(start.Now(), x)
    requires Ready(start.Now(), x, c.nodes, 5 * x.period)
    requires !AllMovable(start.Now(), x) && forall i | i in x.clique :: CanMove(c, x, i)
    ensures PlaysOn(start, g, x) && Ready(g.Now(), x, c.nodes, 4 * x.period) && AllMovable(g.Now(), x)
  {
    var i :| i in x.clique && i < |c.nodes| && !Movable(c.nodes[i]);
    assert CanMove(c, x, i);
    var j :| j in x.clique && j != i && c.nodes[j].view.coord != x.Coord();
    g := StirFrom(c, x, start, j);
  }

  lemma StuckKnow(c: Cluster, x: Setting, j: nat)
    requires Settled(c, x) && Team(Cluster(c.nodes, {}), x) && j in x.clique && c.nodes[j].view.coord != x.Coord()
    ensures forall i | i in x.clique && i != j && !Movable(c.nodes[i]) ::
              c.nodes[i].view.state != Unknown && j in c.nodes[i].others && c.nodes[i].others[j].view.coord != x.Coord()
  {
    forall i | i in x.clique && i != j && !Movable(c.nodes[i]) ensures c.nodes[i].view.state != Unknown {
      assert InTeam(Cluster(c.nodes, {}), x, i);
      NeverUnknown(c.nodes[i]);
    }
  }

  lemma StirFrom(c: Cluster, x: Setting, start: History, j: nat) returns (g: History)
    requires IsSchedule(start, x) && start.Now() == Cluster(c.nodes, {}) && Settled(c, x) && Team(start.Now(), x)
    requires Ready(start.Now(), x, c.nodes, 5 * x.period) && j in x.clique && c.nodes[j].view.coord != x.Coord()
    ensures PlaysOn(start, g, x) && Ready(g.Now(), x, c.nodes, 4 * x.period) && AllMovable(g.Now(), x)
  {
    assert InTeam(start.Now(), x, j);
    OtherCoordIsMarked(c.nodes[j], x);
    StuckKnow(c, x, j);
    var g1, p, t := DoSend(start, x, j, 5 * x.period);
    SentIsStirred(start.Now(), x, c.nodes, j, p, t, g1.Now());
    g := StirAll(g1, x, c.nodes, j, p, {});
  }

  // ----------------------------------------------------- a member that cannot move

  /** A ping that tells a member nothing new. */
  predicate Harmless(p: Ping, c: Cluster, x: Setting) {
    && FromMember(p, x) && p.view.coord == x.Coord()
    && p.sender < |c.nodes| && p.incarnation == c.nodes[p.sender].incarnation
  }

  /** Member t, which was in state s. */
  ghost predicate Steady(t: Supervisor, s: Supervisor, x: Setting) {
    t.self == s.self && t.incarnation == s.incarnation && Member(t, x) && t.view.coord == x.Coord()
  }

  /** Member t cannot move, has accepted nothing since s, and knows the others. */
  predicate Stuck(t: Supervisor, s: Supervisor, c: Cluster, x: Setting) {
    && !Movable(t) && t.accepts == s.accepts
    && (forall j | j in x.clique && j != t.self && j < |c.nodes| :: StoresCoord(t, j, c, x))
  }

  predicate StoresCoord(t: Supervisor, j: nat, c: Cluster, x: Setting)
    requires j < |c.nodes|
  {
    j in t.others && t.others[j].view.coord == x.Coord() && t.others[j].incarnation == c.nodes[j].incarnation
  }

  ghost predicate StuckIn(d: Cluster, c: Cluster, x: Setting, i: nat) {
    && InRangeOf(c, x) && |d.nodes| == |c.nodes| && i in x.clique
    && AllHarmless(d.sent, c, x) && AllSteady(d.nodes, c.nodes, x)
    && Stuck(d.nodes[i], c.nodes[i], c, x)
  }

  predicate AllHarmless(sent: set<Ping>, c: Cluster, x: Setting) {
    forall p {:trigger Harmless(p, c, x)} | p in sent :: Harmless(p, c, x)
  }

  ghost predicate AllSteady(ts: seq<Supervisor>, ss: seq<Supervisor>, x: Setting) {
    |ts| == |ss| && forall j {:trigger SteadyAt(ts, ss, x, j)} | j in x.clique && j < |ss| :: SteadyAt(ts, ss, x, j)
  }

  ghost predicate SteadyAt(ts: seq<Supervisor>, ss: seq<Supervisor>, x: Setting, j: nat)
    requires j < |ts| && j < |ss|
  {
    ss[j].self == j && Steady(ts[j], ss[j], x)
  }

  lemma MemberIsCurrent(s: Supervisor, x: Setting)
    requires Good(x) && Member(s, x)
    ensures Current(s)
  {
    assert CliqueOf(x.table, s.self) == x.clique;
  }

  /** What a ping sent leaves alone. */
  lemma SentKeepsStored(t: Supervisor, period: int, timeout: int, u: Supervisor)
    requires Sound(t) && Makes(t, Sent(period, timeout), u)
    ensures u.self == t.self && u.incarnation == t.incarnation && u.accepts == t.accepts
            && u.others.Keys == t.others.Keys
    ensures forall n | n in t.others ::
              u.others[n].incarnation == t.others[n].incarnation && u.others[n].view.coord == t.others[n].view.coord
  {
    SendKeepsRest(t, period, timeout);
    assert u.others == Aged(t, period, timeout).others;
  }

  lemma SentIsMember(t: Supervisor, x: Setting, period: int, timeout: int, u: Supervisor)
    requires Good(x) && Member(t, x) && Makes(t, Sent(period, timeout), u) && u.Table() == x.table
    ensures Member(u, x) && u.view.state != Unknown && !Marked(u)
  {
    MemberIsCurrent(t, x);
    MakesKeepsInv(t, Sent(period, timeout), u);
    SentIsCurrent(t, period, timeout, u);
    SentKeepsStored(t, period, timeout, u);
    CurrentIsMember(u, x);
  }

  lemma SteadySends(t: Supervisor, s: Supervisor, x: Setting, period: int, timeout: int, u: Supervisor)
    requires Good(x) && Steady(t, s, x) && Makes(t, Sent(period, timeout), u) && u.Table() == x.table
    ensures Steady(u, s, x) && FromMember(Ping(u.self, u.incarnation, u.view), x)
  {
    SentIsMember(t, x, period, timeout, u);
    SentKeepsStored(t, period, timeout, u);
    SeesMember(u, x, u.self);
  }

  lemma StuckSends(t: Supervisor, s: Supervisor, c: Cluster, x: Setting, period: int, timeout: int, u: Supervisor)
    requires Sound(t) && t.Table() == x.table && Stuck(t, s, c, x)
    requires Makes(t, Sent(period, timeout), u) && u.Table() == x.table
    ensures Stuck(u, s, c, x)
  {
    SentKeepsStored(t, period, timeout, u);
    SentAnnounces(t, period, timeout, u);
    TableTells(t, t.self);
    TableTells(u, t.self);
    forall j | j in x.clique && j != u.self && j < |c.nodes| ensures StoresCoord(u, j, c, x) {
      assert StoresCoord(t, j, c, x);
    }
  }

  lemma SteadyHears(t: Supervisor, s: Supervisor, x: Setting, p: Ping, timeout: int, u: Supervisor)
    requires Steady(t, s, x) && Makes(t, Got(p, timeout), u) && u.Table() == x.table
    ensures Steady(u, s, x)
  {
    MakesKeepsInv(t, Got(p, timeout), u);
    GotKeeps(t, p, timeout, u);
    GotMarks(t, p, timeout, u);
  }

  /** What a ping that is got leaves alone; in states ACCEPT and COMMIT nothing is
      accepted. */
  lemma GotKeeps(t: Supervisor, p: Ping, timeout: int, u: Supervisor)
    requires Makes(t, Got(p, timeout), u)
    ensures u.self == t.self && u.incarnation == t.incarnation && u.view.clique == t.view.clique
            && u.view.coord == t.view.coord
    ensures t.view.state == Accept || t.view.state == Commit ==>
              u.accepts == t.accepts && (u.view.state == Accept || u.view.state == Commit)
    ensures t.view.state != Unknown
  {
    if p.sender == t.self {
      ReactKeepsRest(t, p);
      AcceptsNothing(t, p);
    } else {
      var v := UpdateNodeInfo(t, p, timeout);
      NotedKeepsRest(t, p, timeout);
      ReactKeepsRest(v, p);
      AcceptsNothing(v, p);
    }
  }

  lemma AcceptsNothing(v: Supervisor, p: Ping)
    requires v.view.state != Unknown
    ensures v.view.state == Accept || v.view.state == Commit ==>
              React(v, p).accepts == v.accepts && (React(v, p).view.state == Accept || React(v, p).view.state == Commit)
  {
  }

  lemma StoredCoordStays(t: Supervisor, c: Cluster, x: Setting, p: Ping, timeout: int, u: Supervisor, j: nat)
    requires Sound(t) && Makes(t, Got(p, timeout), u) && Harmless(p, c, x)
    requires j < |c.nodes| && j != t.self && StoresCoord(t, j, c, x)
    ensures StoresCoord(u, j, c, x)
  {
    GotIsNoted(t, p, timeout, u);
    if p.sender != t.self { UpdateStores(t, p, timeout); }
  }

  lemma StuckHears(t: Supervisor, s: Supervisor, c: Cluster, x: Setting, p: Ping, timeout: int, u: Supervisor)
    requires Sound(t) && t.Table() == x.table && Stuck(t, s, c, x) && Harmless(p, c, x)
    requires Makes(t, Got(p, timeout), u) && u.Table() == x.table
    ensures Stuck(u, s, c, x)
  {
    GotKeeps(t, p, timeout, u);
    GotMarks(t, p, timeout, u);
    TableTells(t, t.self);
    TableTells(u, t.self);
    if p.sender != t.self {
      assert StoresCoord(t, p.sender, c, x);
      TableTells(t, p.sender);
      assert TellsNothing(t, p);
    }
    forall j | j in x.clique && j != u.self && j < |c.nodes| ensures StoresCoord(u, j, c, x) {
      StoredCoordStays(t, c, x, p, timeout, u, j);
    }
  }

  // ------------------------------------------------------------- whole schedules

  lemma StuckWith(d: Cluster, c: Cluster, x: Setting, i: nat, n: nat, u: Supervisor, d': Cluster)
    requires StuckIn(d, c, x, i) && n in x.clique && d'.nodes == d.nodes[n := u] && Steady(u, c.nodes[n], x)
    requires n == i ==> Stuck(u, c.nodes[i], c, x)
    requires AllHarmless(d'.sent, c, x)
    ensures StuckIn(d', c, x, i)
  {
    forall j | j in x.clique && j < |c.nodes| ensures SteadyAt(d'.nodes, c.nodes, x, j) {
      assert SteadyAt(d.nodes, c.nodes, x, j);
    }
  }

  lemma HarmlessMore(sent: set<Ping>, p: Ping, c: Cluster, x: Setting)
    requires AllHarmless(sent, c, x) && Harmless(p, c, x)
    ensures AllHarmless(sent + {p}, c, x)
  {
  }

  lemma StuckAfterSend(d: Cluster, c: Cluster, x: Setting, i: nat, n: nat, period: int, timeout: int,
          u: Supervisor, d': Cluster)
    requires Good(x) && StuckIn(d, c, x, i) && n in x.clique && Makes(d.nodes[n], Sent(period, timeout), u)
    requires u.Table() == x.table
    requires d' == Cluster(d.nodes[n := u], d.sent + {Ping(u.self, u.incarnation, u.view)})
    ensures StuckIn(d', c, x, i)
  {
    assert SteadyAt(d.nodes, c.nodes, x, n) && SteadyAt(d.nodes, c.nodes, x, i);
    SteadySends(d.nodes[n], c.nodes[n], x, period, timeout, u);
    HarmlessMore(d.sent, Ping(u.self, u.incarnation, u.view), c, x);
    if n == i {
      StuckSends(d.nodes[n], c.nodes[i], c, x, period, timeout, u);
    }
    StuckWith(d, c, x, i, n, u, d');
  }

  lemma SentPing(d: Cluster, e: Agreement.Event, d': Cluster)
    requires e.Send? && Next(d, e, d')
    ensures e.node < |d.nodes| && |d'.nodes| == |d.nodes|
    ensures Makes(d.nodes[e.node], Sent(e.period, e.timeout), d'.nodes[e.node])
    ensures var u := d'.nodes[e.node];
            d' == Cluster(d.nodes[e.node := u], d.sent + {Ping(u.self, u.incarnation, u.view)})
  {
  }

  lemma StuckAfterReceive(d: Cluster, c: Cluster, x: Setting, i: nat, n: nat, p: Ping, timeout: int,
          u: Supervisor, d': Cluster)
    requires Good(x) && StuckIn(d, c, x, i) && n in x.clique && p in d.sent && Makes(d.nodes[n], Got(p, timeout), u)
    requires u.Table() == x.table && d' == Cluster(d.nodes[n := u], d.sent)
    ensures StuckIn(d', c, x, i)
  {
    assert Harmless(p, c, x) && SteadyAt(d.nodes, c.nodes, x, n) && SteadyAt(d.nodes, c.nodes, x, i);
    SteadyHears(d.nodes[n], c.nodes[n], x, p, timeout, u);
    if n == i {
      StuckHears(d.nodes[n], c.nodes[i], c, x, p, timeout, u);
    }
    StuckWith(d, c, x, i, n, u, d');
  }

  lemma ReceivedPing(d: Cluster, e: Agreement.Event, d': Cluster)
    requires e.Receive? && Next(d, e, d') && e.ping.sender < MAX_NODES
    ensures e.node < |d.nodes| && |d'.nodes| == |d.nodes| && e.ping in d.sent
    ensures Makes(d.nodes[e.node], Got(e.ping, e.timeout), d'.nodes[e.node])
    ensures d' == Cluster(d.nodes[e.node := d'.nodes[e.node]], d.sent)
  {
  }

  lemma StuckAfterStep(d: Cluster, c: Cluster, x: Setting, i: nat, e: Agreement.Event, d': Cluster)
    requires Good(x) && StuckIn(d, c, x, i) && StepIn(d, x, e, d')
    ensures StuckIn(d', c, x, i)
  {
    assert SteadyAt(d.nodes, c.nodes, x, e.node);
    match e {
      case Send(n, period, timeout) =>
        SentPing(d, e, d');
        StuckAfterSend(d, c, x, i, n, period, timeout, d'.nodes[n], d');
      case Receive(n, p, timeout) =>
        assert Harmless(p, c, x);
        ReceivedPing(d, e, d');
        StuckAfterReceive(d, c, x, i, n, p, timeout, d'.nodes[n], d');
    }
  }

  lemma {:induction false} StaysStuck(h: History, c: Cluster, x: Setting, i: nat, k: nat)
    requires Good(x) && IsSchedule(h, x) && k < |h.run| && StuckAt(h, c, x, i, 0)
    ensures StuckAt(h, c, x, i, k)
  {
    if k > 0 {
      StaysStuck(h, c, x, i, k - 1);
      StuckNext(h, c, x, i, k - 1);
    }
  }

  ghost predicate StuckAt(h: History, c: Cluster, x: Setting, i: nat, k: nat)
    requires k < |h.run|
  {
    StuckIn(h.run[k], c, x, i)
  }

  lemma StuckNext(h: History, c: Cluster, x: Setting, i: nat, k: nat)
    requires Good(x) && IsSchedule(h, x) && k < |h.events| && StuckAt(h, c, x, i, k)
    ensures StuckAt(h, c, x, i, k + 1)
  {
    StuckAfterStep(h.run[k], c, x, i, h.events[k], h.run[k + 1]);
  }

  lemma StartsStuck(c: Cluster, x: Setting, i: nat)
    requires Settled(c, x) && Team(Cluster(c.nodes, {}), x) && i in x.clique && !CanMove(c, x, i)
    ensures StuckIn(Cluster(c.nodes, {}), c, x, i)
  {
    var d := Cluster(c.nodes, {});
    assert InTeam(d, x, i);
    NeverUnknown(c.nodes[i]);
    forall j | j in x.clique ensures SteadyAt(d.nodes, c.nodes, x, j) {
      assert InTeam(d, x, j);
    }
    forall j | j in x.clique && j != i && j < |c.nodes| ensures StoresCoord(c.nodes[i], j, c, x) {
    }
  }

  /** What a member delivers it has accepted. */
  lemma StuckAgreesOnNothing(t: Supervisor, s: Supervisor, m: Membership)
    requires Inv(t) && t.accepts == s.accepts && LastIs(t.delivered, m)
    ensures m in s.accepts
  {
  }

  lemma StuckNeverAgrees(c: Cluster, x: Setting, i: nat, h: History, gen: nat)
    requires Settled(c, x) && Team(Cluster(c.nodes, {}), x) && i in x.clique && !CanMove(c, x, i)
    requires StartsAt(h, c, x)
    ensures !AgreedOn(c, h.Now(), x, gen)
  {
    StartsStuck(c, x, i);
    StaysStuck(h, c, x, i, |h.run| - 1);
    var d := h.Now();
    assert SteadyAt(d.nodes, c.nodes, x, i);
    if LastIs(d.nodes[i].delivered, Membership(gen, x.clique)) {
      StuckAgreesOnNothing(d.nodes[i], c.nodes[i], Membership(gen, x.clique));
    }
  }

  /** Agreement is reached, exactly when. In every state of every run in which
      the members of a clique hold equal tables and each other's views, and as
      long as no table changes, there is a schedule after which all of them have
      delivered one and the same new membership if and only if every member is in
      state CHANGE, is marked, or is to hear of another coordinator. */
  lemma AgreementIsReachedIff(run: seq<Cluster>, events: seq<Agreement.Event>, n: nat, x: Setting)
    requires IsRun(run, events) && n < |run| && Settled(run[n], x)
    ensures CanAgree(run[n], x) <==> forall i | i in x.clique :: CanMove(run[n], x, i)
  {
    SettledIsTeam(run, events, n, x);
    if forall i | i in x.clique :: CanMove(run[n], x, i) {
      var h, gen := CanMoveAgrees(run, events, n, x);
      assert StartsAt(h, run[n], x) && AgreedOn(run[n], h.Now(), x, gen);
    } else {
      var i :| i in x.clique && !CanMove(run[n], x, i);
      forall h: History, gen: nat | StartsAt(h, run[n], x) ensures !AgreedOn(run[n], h.Now(), x, gen) {
        StuckNeverAgrees(run[n], x, i, h, gen);
      }
    }
  }

  // -------------------------------------------------------------- as a longer run

  lemma StepLifts(c: Cluster, x: Setting, e: Agreement.Event, d: Cluster, sent: set<Ping>)
    requires StepIn(c, x, e, d)
    ensures Next(Cluster(c.nodes, c.sent + sent), e, Cluster(d.nodes, d.sent + sent))
  {
    if e.Send? {
      SentPing(c, e, d);
      var u := d.nodes[e.node];
      assert d.sent + sent == (c.sent + sent) + {Ping(u.self, u.incarnation, u.view)};
    }
  }

  /** Such a schedule extends the run. */
  lemma AgreementIsReached(run: seq<Cluster>, events: seq<Agreement.Event>, n: nat, x: Setting)
    returns (longer: seq<Cluster>, more: seq<Agreement.Event>, gen: nat)
    requires IsRun(run, events) && n < |run| && Settled(run[n], x)
    requires forall i | i in x.clique :: CanMove(run[n], x, i)
    ensures IsRun(run[..n] + longer, events[..n] + more) && longer[0] == run[n]
    ensures AgreedOn(run[n], longer[|longer| - 1], x, gen)
  {
    var h;
    h, gen := CanMoveAgrees(run, events, n, x);
    longer, more := Lifted(h, run[n].sent), h.events;
    assert longer[0] == run[n];
    ScheduleLifts(h, x, run[n].sent);
    RunsJoin(run, events, n, longer, more);
  }

  /** The states of a schedule, with the pings sent before. */
  function Lifted(h: History, sent: set<Ping>): (run: seq<Cluster>)
    ensures |run| == |h.run|
    ensures forall i | 0 <= i < |run| :: run[i] == Cluster(h.run[i].nodes, h.run[i].sent + sent)
  {
    seq(|h.run|, i requires 0 <= i < |h.run| => Cluster(h.run[i].nodes, h.run[i].sent + sent))
  }

  lemma ScheduleLifts(h: History, x: Setting, sent: set<Ping>)
    requires IsSchedule(h, x)
    ensures forall i | 0 <= i < |h.events| :: Next(Lifted(h, sent)[i], h.events[i], Lifted(h, sent)[i + 1])
  {
    forall i | 0 <= i < |h.events| ensures Next(Lifted(h, sent)[i], h.events[i], Lifted(h, sent)[i + 1]) {
      StepLifts(h.run[i], x, h.events[i], h.run[i + 1], sent);
    }
  }

  lemma RunsJoin(run: seq<Cluster>, events: seq<Agreement.Event>, n: nat, longer: seq<Cluster>,
          more: seq<Agreement.Event>)
    requires IsRun(run, events) && n < |run| && |longer| == |more| + 1 && longer[0] == run[n]
    requires forall i | 0 <= i < |more| :: Next(longer[i], more[i], longer[i + 1])
    ensures IsRun(run[..n] + longer, events[..n] + more)
  {
    var r, e := run[..n] + longer, events[..n] + more;
    forall i | 0 <= i < |e| ensures Next(r[i], e[i], r[i + 1]) {
      if i < n {
        assert Next(run[i], events[i], run[i + 1]);
      } else {
        assert Next(longer[i - n], more[i - n], longer[i - n + 1]);
      }
    }
  }
}
