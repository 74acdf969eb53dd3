/**
 When the members of a clique come to agree on it (csupd/src/exa_csupd.c). The
 members send and receive pings as in MemberSchedules: the coordinator gathers
 the views of the others and proposes a generation, the others accept it, the
 coordinator commits and the others follow.
 */
module AgreementProgress {
  import opened Common
  import opened Clique
  import opened SupView
  import opened Supervision
  import opened SupervisorPaths
  import opened Agreement
  import opened MemberSchedules

  /** The next ping of s announces state CHANGE. */
  predicate Movable(s: Supervisor) {
    s.view.state == Change || Marked(s)
  }

  predicate HoldsClique(v: View, x: Setting) {
    v.clique == x.clique && v.coord == x.Coord()
  }

  /** Waiting for a proposal. */
  predicate InLine(t: Supervisor, x: Setting) {
    t.view.state == Change && !Marked(t) && HoldsClique(t.view, x)
  }

  // ------------------------------------------------------------- gathering

  /** The coordinator, b being its state at the start. A proposal it may have
      made already is new. */
  predicate Gathers(s: Supervisor, x: Setting, b: Supervisor) {
    && HoldsClique(s.view, x) && (s.view.state == Change || s.view.state == Accept)
    && Spare(s, x.timeout, 3 * x.period)
    && b.accepts <= s.accepts
    && (s.view.state == Accept ==> Membership(s.view.accepted, x.clique) !in b.accepts)
  }

  /** Member t, as the coordinator s knows it. */
  predicate KnowsGens(s: Supervisor, t: Supervisor) {
    && t.self in s.others
    && s.others[t.self].view.accepted == t.view.accepted
    && s.others[t.self].view.committed == t.view.committed
  }

  predicate Gathered(s: Supervisor, t: Supervisor, x: Setting, b: Supervisor, ready: bool) {
    && KnowsGens(s, t) && t.accepts == b.accepts
    && (s.view.state == Accept ==> t.HighestGen() < s.view.accepted)
    && if ready then InLine(t, x) && HoldsClique(s.others[t.self].view, x) && Spare(t, x.timeout, x.period)
       else Movable(t) && Spare(t, x.timeout, 2 * x.period)
  }

  predicate Gathering(c: Cluster, x: Setting, base: seq<Supervisor>, done: set<nat>) {
    && InRangeOf(c, x) && |base| == |c.nodes|
    && Gathers(c.nodes[x.Coord()], x, base[x.Coord()])
    && (forall i | i in x.clique && i != x.Coord() ::
          c.nodes[i].self == i && Gathered(c.nodes[x.Coord()], c.nodes[i], x, base[i], i in done))
  }

  /** The members are nodes of the cluster, and the coordinator is one of them. */
  predicate InRangeOf(c: Cluster, x: Setting) {
    x.Coord() in x.clique && forall i | i in x.clique :: i < |c.nodes|
  }

  /** The coordinator u, which has stored ping p of a member in state CHANGE,
      becomes s: it makes a new proposal or does nothing. */
  lemma HearsChange(u: Supervisor, p: Ping, s: Supervisor)
    requires Inv(u) && (u.view.state == Change || u.view.state == Accept) && u.IsCoord()
    requires p.view.state == Change && s == React(u, p)
    ensures s == u || (u.view.state == Change && s == AcceptClique(u, NextGen(u)))
  {
  }

  lemma ProposalIsNew(u: Supervisor, accepts: seq<Membership>, k: set<nat>)
    requires Inv(u) && accepts <= u.accepts
    ensures Membership(NextGen(u), k) !in accepts
  {
    NextGenIsNew(u, u.self);
  }

  predicate Below(v: View, gen: nat) {
    v.accepted < gen && v.committed < gen
  }

  /** What the coordinator s has gathered after the ping p of another member. */
  predicate GathersFrom(s: Supervisor, x: Setting, p: Ping, s': Supervisor) {
    && s'.self == s.self
    && p.sender in s.others && s'.others == s.others[p.sender := NodeInfo(p.incarnation, p.view, 0)]
    && (s'.view.state == Accept ==>
          || (s.view.state == Accept && s'.view.accepted == s.view.accepted)
          || (forall n | n in x.clique && n in s'.others :: Below(s'.others[n].view, s'.view.accepted)))
  }

  /** A proposal is above all that the members have accepted or committed. */
  lemma ProposalIsAbove(u: Supervisor, x: Setting, n: nat)
    requires Good(x) && Sound(u) && u.self in x.clique && u.Table() == x.table && n in x.clique && n in u.others
    ensures Below(u.others[n].view, NextGen(u))
  {
    SeesMember(u, x, n);
    NextGenIsNew(u, n);
  }

  /** The coordinator gets the ping of one more member. */
  lemma GathersNext(s: Supervisor, x: Setting, b: Supervisor, p: Ping, s': Supervisor)
    requires Good(x) && Gathers(s, x, b) && s.self == x.Coord() && p.sender != s.self && p.sender in s.others
    requires Member(s', x) && Spare(s', x.timeout, 3 * x.period)
    requires p.view.state == Change && Hears(s, p, s')
    ensures Gathers(s', x, b) && GathersFrom(s, x, p, s')
  {
    var u := Noting(s, p);
    HearsChange(u, p, s');
    ReactKeepsRest(u, p);
    SameTable(s', u);
    ProposalIsNew(u, b.accepts, x.clique);
    forall n | n in x.clique && n in u.others ensures Below(u.others[n].view, NextGen(u)) {
      ProposalIsAbove(u, x, n);
    }
  }

  /** What the coordinator knows of another member does not change. */
  lemma OtherStaysGathered(s: Supervisor, x: Setting, p: Ping, s': Supervisor, t: Supervisor, b: Supervisor,
          ready: bool)
    requires Gathered(s, t, x, b, ready) && GathersFrom(s, x, p, s') && t.self != p.sender && t.self in x.clique
    ensures Gathered(s', t, x, b, ready)
  {
  }

  lemma SenderIsGathered(s: Supervisor, x: Setting, p: Ping, s': Supervisor, t0: Supervisor, t: Supervisor,
          b: Supervisor)
    requires Gathered(s, t0, x, b, false) && SendsAs(t0, x, t) && Spare(t, x.timeout, x.period)
    requires p == Ping(t.self, t.incarnation, t.view) && GathersFrom(s, x, p, s') && t.self in x.clique
    ensures Gathered(s', t, x, b, true)
  {
  }

  lemma GatheredWith(c: Cluster, x: Setting, base: seq<Supervisor>, done: set<nat>, i: nat,
                     t: Supervisor, p: Ping, s': Supervisor, d: Cluster)
    requires Gathering(c, x, base, done) && i in x.clique && i != x.Coord() && i !in done
    requires SendsAs(c.nodes[i], x, t) && Spare(t, x.timeout, x.period) && p == Ping(i, t.incarnation, t.view)
    requires Gathers(s', x, base[x.Coord()]) && GathersFrom(c.nodes[x.Coord()], x, p, s')
    requires d.nodes == c.nodes[i := t][x.Coord() := s']
    ensures Gathering(d, x, base, done + {i})
  {
    var k := x.Coord();
    forall j | j in x.clique && j != k
      ensures d.nodes[j].self == j && Gathered(s', d.nodes[j], x, base[j], j in done + {i})
    {
      assert Gathered(c.nodes[k], c.nodes[j], x, base[j], j in done);
      if j == i {
        SenderIsGathered(c.nodes[k], x, p, s', c.nodes[i], t, base[i]);
      } else {
        OtherStaysGathered(c.nodes[k], x, p, s', c.nodes[j], base[j], j in done);
      }
    }
  }

  /** Member i sends, and the coordinator gets its ping. */
  lemma GatherOne(h: History, x: Setting, base: seq<Supervisor>, done: set<nat>, i: nat) returns (g: History)
    requires Plays(h, x) && Gathering(h.Now(), x, base, done)
    requires i in x.clique && i != x.Coord() && i !in done
    ensures PlaysOn(h, g, x) && Gathering(g.Now(), x, base, done + {i})
  {
    var k := x.Coord();
    var s, t0 := h.Now().nodes[k], h.Now().nodes[i];
    assert Gathered(s, t0, x, base[i], false) && InTeam(h.Now(), x, k) && InTeam(h.Now(), x, i);
    var g1, p, t := DoSend(h, x, i, 2 * x.period);
    assert g1.Now().nodes[k] == s;
    var g2, s' := DoReceive(g1, x, k, 3 * x.period, p);
    g := g2;
    assert InTeam(g.Now(), x, k);
    GathersNext(s, x, base[k], p, s');
    GatheredWith(h.Now(), x, base, done, i, t, p, s', g.Now());
  }

  /** The coordinator has gathered the views of all. */
  lemma {:induction false} GatherAll(h: History, x: Setting, base: seq<Supervisor>, done: set<nat>) returns (g: History)
    requires Plays(h, x) && Gathering(h.Now(), x, base, done)
    requires x.Coord() in done && done <= x.clique
    ensures PlaysOn(h, g, x) && Gathering(g.Now(), x, base, x.clique)
    decreases x.clique - done
  {
    if i :| i in x.clique && i !in done {
      var g1 := GatherOne(h, x, base, done, i);
      g := GatherAll(g1, x, base, done + {i});
    } else {
      assert done == x.clique;
      g := h;
    }
  }

  // -------------------------------------------------------------- proposing

  /** The coordinator has proposed a new membership. */
  predicate Proposes(s: Supervisor, x: Setting, b: Supervisor) {
    && s.view.state == Accept && !Marked(s) && HoldsClique(s.view, x)
    && Membership(s.view.accepted, x.clique) !in b.accepts
  }

  /** Member t can take the proposal. */
  predicate Awaits(s: Supervisor, t: Supervisor, x: Setting, b: Supervisor) {
    && t.self in s.others && HoldsClique(s.others[t.self].view, x)
    && InLine(t, x) && Below(t.view, s.view.accepted) && t.accepts == b.accepts
    && Spare(t, x.timeout, x.period)
  }

  predicate Proposing(c: Cluster, x: Setting, base: seq<Supervisor>, time: int) {
    && InRangeOf(c, x) && |base| == |c.nodes|
    && Proposes(c.nodes[x.Coord()], x, base[x.Coord()]) && Spare(c.nodes[x.Coord()], x.timeout, time)
    && (forall i | i in x.clique && i != x.Coord() ::
          c.nodes[i].self == i && Awaits(c.nodes[x.Coord()], c.nodes[i], x, base[i]))
  }

  lemma Agrees(u: Supervisor, x: Setting, p: Ping, s: Supervisor)
    requires Inv(u) && u.view.state == Change && u.self == x.Coord() && HoldsClique(u.view, x)
    requires p.view.state == Change && s == React(u, p)
    requires forall n | n in x.clique && n != u.self :: n in u.others && HoldsClique(u.others[n].view, x)
    requires x.clique <= u.view.nodesSeen
    ensures s == AcceptClique(u, NextGen(u))
  {
    assert CliqueSeesSelfAsCoord(u);
  }

  /** The coordinator gets its own ping, and proposes. */
  lemma CoordProposes(u: Supervisor, x: Setting, b: Supervisor, p: Ping, s: Supervisor)
    requires Good(x) && Member(u, x) && u.view.state == Change && u.self == x.Coord() && HoldsClique(u.view, x)
    requires !Marked(u) && b.accepts <= u.accepts && p.sender == u.self && p.view.state == Change && Hears(u, p, s)
    requires forall n | n in x.clique && n != u.self :: n in u.others && HoldsClique(u.others[n].view, x)
    ensures Proposes(s, x, b) && s.others == u.others
    ensures forall n | n in x.clique && n in u.others :: Below(u.others[n].view, s.view.accepted)
  {
    forall n | n in x.clique ensures n in u.view.nodesSeen { SeesMember(u, x, n); }
    Agrees(u, x, p, s);
    ProposalIsNew(u, b.accepts, x.clique);
    forall n | n in x.clique && n in u.others ensures Below(u.others[n].view, NextGen(u)) {
      ProposalIsAbove(u, x, n);
    }
  }

  /** Member t holds the clique, and the coordinator s knows it. */
  predicate Lined(s: Supervisor, t: Supervisor, x: Setting, b: Supervisor) {
    && KnowsGens(s, t) && HoldsClique(s.others[t.self].view, x)
    && InLine(t, x) && t.accepts == b.accepts && Spare(t, x.timeout, x.period)
  }

  /** s1 is the coordinator s after a send. */
  lemma LinedAfterSend(s: Supervisor, s1: Supervisor, t: Supervisor, x: Setting, b: Supervisor)
    requires Gathered(s, t, x, b, true) && SendsAs(s, x, s1)
    ensures Lined(s1, t, x, b)
    ensures s1.view.state == Accept ==> Awaits(s1, t, x, b)
  {
  }

  predicate AllLined(d: Cluster, x: Setting, base: seq<Supervisor>, s: Supervisor) {
    && InRangeOf(d, x) && |base| == |d.nodes|
    && (forall i | i in x.clique && i != x.Coord() :: d.nodes[i].self == i && Lined(s, d.nodes[i], x, base[i]))
  }

  lemma SentIsLined(c: Cluster, x: Setting, base: seq<Supervisor>, s1: Supervisor, d: Cluster)
    requires Gathering(c, x, base, x.clique) && d.nodes == c.nodes[x.Coord() := s1]
    requires SendsAs(c.nodes[x.Coord()], x, s1) && Spare(s1, x.timeout, 2 * x.period)
    ensures AllLined(d, x, base, s1)
    ensures s1.view.state == Accept ==> Proposing(d, x, base, 2 * x.period)
  {
    forall i | i in x.clique && i != x.Coord()
      ensures d.nodes[i].self == i && Lined(s1, d.nodes[i], x, base[i])
      ensures s1.view.state == Accept ==> Awaits(s1, d.nodes[i], x, base[i])
    {
      assert Gathered(c.nodes[x.Coord()], c.nodes[i], x, base[i], i in x.clique);
      LinedAfterSend(c.nodes[x.Coord()], s1, c.nodes[i], x, base[i]);
    }
  }

  /** The coordinator s1 becomes s2, which has proposed. */
  lemma LinedIsProposing(c: Cluster, x: Setting, base: seq<Supervisor>, s1: Supervisor, s2: Supervisor, d: Cluster)
    requires AllLined(c, x, base, s1) && d.nodes == c.nodes[x.Coord() := s2]
    requires Proposes(s2, x, base[x.Coord()]) && Spare(s2, x.timeout, 2 * x.period) && s2.others == s1.others
    requires forall n | n in x.clique && n in s1.others :: Below(s1.others[n].view, s2.view.accepted)
    ensures Proposing(d, x, base, 2 * x.period)
  {
    forall i | i in x.clique && i != x.Coord() ensures d.nodes[i].self == i && Awaits(s2, d.nodes[i], x, base[i]) {
      assert Lined(s1, c.nodes[i], x, base[i]);
    }
  }

  /** The coordinator u holds the clique, and so do all that it has heard. */
  lemma CoordIsLined(d: Cluster, x: Setting, base: seq<Supervisor>, u: Supervisor, n: nat)
    requires AllLined(d, x, base, u) && n in x.clique && n != x.Coord()
    ensures n in u.others && HoldsClique(u.others[n].view, x)
  {
    assert Lined(u, d.nodes[n], x, base[n]);
  }

  /** The coordinator is in state CHANGE, and gets its own ping. */
  lemma ProposeNow(h: History, x: Setting, base: seq<Supervisor>, p: Ping) returns (g: History)
    requires Plays(h, x) && AllLined(h.Now(), x, base, h.Now().nodes[x.Coord()])
    requires InLine(h.Now().nodes[x.Coord()], x) && Spare(h.Now().nodes[x.Coord()], x.timeout, 2 * x.period)
    requires base[x.Coord()].accepts <= h.Now().nodes[x.Coord()].accepts && p in h.Now().sent && FromMember(p, x)
    requires p.sender == x.Coord() && p.incarnation == h.Now().nodes[x.Coord()].incarnation && p.view.state == Change
    ensures PlaysOn(h, g, x) && Proposing(g.Now(), x, base, 2 * x.period)
  {
    var k := x.Coord();
    var s1 := h.Now().nodes[k];
    assert InTeam(h.Now(), x, k);
    var g1, s2 := DoReceive(h, x, k, 2 * x.period, p);
    g := g1;
    forall n | n in x.clique && n != k ensures n in s1.others && HoldsClique(s1.others[n].view, x) {
      CoordIsLined(h.Now(), x, base, s1, n);
    }
    CoordProposes(s1, x, base[k], p, s2);
    LinedIsProposing(h.Now(), x, base, s1, s2, g.Now());
  }

  /** The coordinator sends, and proposes unless it has done so. */
  lemma Propose(h: History, x: Setting, base: seq<Supervisor>) returns (g: History)
    requires Plays(h, x) && Gathering(h.Now(), x, base, x.clique)
    ensures PlaysOn(h, g, x) && Proposing(g.Now(), x, base, 2 * x.period)
  {
    var k := x.Coord();
    var g1, p, s1 := DoSend(h, x, k, 3 * x.period);
    SentIsLined(h.Now(), x, base, s1, g1.Now());
    if s1.view.state == Accept {
      g := g1;
    } else {
      g := ProposeNow(g1, x, base, p);
    }
  }

  // -------------------------------------------------------------- accepting

  predicate LastIs(log: seq<Membership>, m: Membership) {
    log != [] && log[|log| - 1] == m
  }

  predicate HasCommitted(s: Supervisor, x: Setting, gen: nat) {
    s.view.state == Commit && s.view.committed == gen && LastIs(s.delivered, Membership(gen, x.clique))
  }

  /** The coordinator, while the others accept. */
  predicate Collects(s: Supervisor, x: Setting, gen: nat) {
    && HoldsClique(s.view, x) && !Marked(s) && s.view.accepted == gen
    && (s.view.state == Accept || HasCommitted(s, x, gen))
  }

  /** Member t has accepted generation gen. */
  predicate HasTaken(t: Supervisor, x: Setting, gen: nat) {
    && (t.view.state == Change || t.view.state == Accept) && HoldsClique(t.view, x)
    && t.view.accepted == gen && t.view.committed < gen && t.acceptedClique == x.clique
  }

  /** Member t, before (not done) or after it has taken the proposal. */
  predicate Takes(s: Supervisor, t: Supervisor, x: Setting, gen: nat, done: bool) {
    && t.self in s.others && HoldsClique(s.others[t.self].view, x) && Spare(t, x.timeout, x.period)
    && if done then HasTaken(t, x, gen) else InLine(t, x) && Below(t.view, gen)
  }

  predicate Taking(c: Cluster, x: Setting, gen: nat, done: set<nat>) {
    && InRangeOf(c, x)
    && Collects(c.nodes[x.Coord()], x, gen) && Spare(c.nodes[x.Coord()], x.timeout, x.period)
    && (forall i | i in x.clique && i != x.Coord() ::
          c.nodes[i].self == i && Takes(c.nodes[x.Coord()], c.nodes[i], x, gen, i in done))
  }

  /** q is the ping with the proposal. */
  predicate IsProposal(q: Ping, x: Setting, gen: nat) {
    && FromMember(q, x) && q.sender == x.Coord()
    && q.view.state == Accept && HoldsClique(q.view, x) && q.view.accepted == gen
  }

  /** q has been sent by the coordinator as it is now. */
  predicate IsOut(q: Ping, c: Cluster) {
    q in c.sent && q.sender < |c.nodes| && q.incarnation == c.nodes[q.sender].incarnation
  }

  lemma AnnouncedIsTaking(c: Cluster, x: Setting, base: seq<Supervisor>, s: Supervisor, d: Cluster)
    requires Proposing(c, x, base, 2 * x.period) && d.nodes == c.nodes[x.Coord() := s]
    requires SendsAs(c.nodes[x.Coord()], x, s) && Spare(s, x.timeout, x.period)
    ensures s.view.state == Accept && Taking(d, x, s.view.accepted, {x.Coord()})
  {
    forall i | i in x.clique && i != x.Coord()
      ensures d.nodes[i].self == i && Takes(s, d.nodes[i], x, s.view.accepted, false)
    {
      assert Awaits(c.nodes[x.Coord()], c.nodes[i], x, base[i]);
    }
  }

  /** The coordinator sends its proposal. */
  lemma Announce(h: History, x: Setting, base: seq<Supervisor>) returns (g: History, q: Ping)
    requires Plays(h, x) && Proposing(h.Now(), x, base, 2 * x.period)
    ensures PlaysOn(h, g, x) && Taking(g.Now(), x, q.view.accepted, {x.Coord()})
    ensures IsOut(q, g.Now()) && IsProposal(q, x, q.view.accepted)
    ensures q.view.accepted == h.Now().nodes[x.Coord()].view.accepted
  {
    var g1, p, s := DoSend(h, x, x.Coord(), 2 * x.period);
    g, q := g1, p;
    AnnouncedIsTaking(h.Now(), x, base, s, g.Now());
  }

  /** A member takes the proposal. */
  lemma TakesProposal(t: Supervisor, x: Setting, q: Ping, gen: nat, u: Supervisor)
    requires InLine(t, x) && Below(t.view, gen) && IsProposal(q, x, gen) && t.self != x.Coord() && Hears(t, q, u)
    ensures HasTaken(u, x, gen)
  {
  }

  lemma TakenWith(c: Cluster, x: Setting, gen: nat, done: set<nat>, i: nat, u: Supervisor, d: Cluster)
    requires Taking(c, x, gen, done) && i in x.clique && i != x.Coord()
    requires u.self == i && HasTaken(u, x, gen) && Spare(u, x.timeout, x.period) && d.nodes == c.nodes[i := u]
    ensures Taking(d, x, gen, done + {i})
  {
    forall j | j in x.clique && j != x.Coord()
      ensures d.nodes[j].self == j && Takes(d.nodes[x.Coord()], d.nodes[j], x, gen, j in done + {i})
    {
      assert Takes(c.nodes[x.Coord()], c.nodes[j], x, gen, j in done);
    }
  }

  /** Member i gets the proposal. */
  lemma TakeOne(h: History, x: Setting, gen: nat, q: Ping, done: set<nat>, i: nat) returns (g: History)
    requires Plays(h, x) && Taking(h.Now(), x, gen, done)
    requires IsOut(q, h.Now()) && IsProposal(q, x, gen) && i in x.clique && i != x.Coord() && i !in done
    ensures PlaysOn(h, g, x) && Taking(g.Now(), x, gen, done + {i}) && IsOut(q, g.Now())
  {
    assert InTeam(h.Now(), x, i) && Takes(h.Now().nodes[x.Coord()], h.Now().nodes[i], x, gen, false);
    var g1, u := DoReceive(h, x, i, x.period, q);
    TakesProposal(h.Now().nodes[i], x, q, gen, u);
    g := g1;
    TakenWith(h.Now(), x, gen, done, i, u, g.Now());
  }

  lemma {:induction false} TakeAll(h: History, x: Setting, gen: nat, q: Ping, done: set<nat>) returns (g: History)
    requires Plays(h, x) && Taking(h.Now(), x, gen, done)
    requires x.Coord() in done && done <= x.clique
    requires IsOut(q, h.Now()) && IsProposal(q, x, gen)
    ensures PlaysOn(h, g, x) && Taking(g.Now(), x, gen, x.clique) && IsOut(q, g.Now())
    decreases x.clique - done
  {
    if i :| i in x.clique && i !in done {
      var g1 := TakeOne(h, x, gen, q, done, i);
      g := TakeAll(g1, x, gen, q, done + {i});
    } else {
      assert done == x.clique;
      g := h;
    }
  }

  // ------------------------------------------------------------- collecting

  /** Member t has accepted; done says that the coordinator knows. */
  predicate Answers(s: Supervisor, t: Supervisor, x: Setting, gen: nat, done: bool) {
    && t.self in s.others && HoldsClique(s.others[t.self].view, x) && HasTaken(t, x, gen)
    && if done then s.others[t.self].view.accepted == gen && Spare(t, x.timeout, 0) else Spare(t, x.timeout, x.period)
  }

  predicate Collecting(c: Cluster, x: Setting, gen: nat, done: set<nat>) {
    && InRangeOf(c, x)
    && Collects(c.nodes[x.Coord()], x, gen) && Spare(c.nodes[x.Coord()], x.timeout, x.period)
    && (forall i | i in x.clique && i != x.Coord() ::
          c.nodes[i].self == i && Answers(c.nodes[x.Coord()], c.nodes[i], x, gen, i in done))
  }

  lemma TakenIsCollecting(c: Cluster, x: Setting, gen: nat)
    requires Taking(c, x, gen, x.clique)
    ensures Collecting(c, x, gen, {x.Coord()})
  {
    forall i | i in x.clique && i != x.Coord() ensures Answers(c.nodes[x.Coord()], c.nodes[i], x, gen, false) {
      assert Takes(c.nodes[x.Coord()], c.nodes[i], x, gen, i in x.clique);
    }
  }

  /** The coordinator hears that a member has accepted. */
  lemma CoordCollects(s: Supervisor, x: Setting, gen: nat, a: Ping, s': Supervisor)
    requires Collects(s, x, gen) && s.self == x.Coord() && a.sender != s.self && Hears(s, a, s')
    requires HoldsClique(s.others[a.sender].view, x) && HoldsClique(a.view, x)
    requires a.view.state == Change || a.view.state == Accept
    ensures Collects(s', x, gen) && s'.others == s.others[a.sender := NodeInfo(a.incarnation, a.view, 0)]
  {
    var u := Noting(s, a);
    assert s' == u || (u.view.state == Accept && s' == CommitClique(u));
  }

  lemma CollectedWith(c: Cluster, x: Setting, gen: nat, done: set<nat>, i: nat, t: Supervisor, a: Ping,
          s': Supervisor, d: Cluster)
    requires Collecting(c, x, gen, done) && i in x.clique && i != x.Coord() && i !in done
    requires t.self == i && HasTaken(t, x, gen) && Spare(t, x.timeout, 0) && a == Ping(i, t.incarnation, t.view)
    requires Collects(s', x, gen) && Spare(s', x.timeout, x.period)
    requires s'.others == c.nodes[x.Coord()].others[i := NodeInfo(a.incarnation, a.view, 0)]
    requires d.nodes == c.nodes[i := t][x.Coord() := s']
    ensures Collecting(d, x, gen, done + {i})
  {
    forall j | j in x.clique && j != x.Coord()
      ensures d.nodes[j].self == j && Answers(s', d.nodes[j], x, gen, j in done + {i})
    {
      assert Answers(c.nodes[x.Coord()], c.nodes[j], x, gen, j in done);
    }
  }

  lemma TakenIsSent(u: Supervisor, x: Setting, gen: nat, t: Supervisor)
    requires HasTaken(u, x, gen) && SendsAs(u, x, t)
    ensures HasTaken(t, x, gen)
  {
  }

  /** The coordinator gets the answer of a member. */
  lemma HearOne(h: History, x: Setting, gen: nat, a: Ping) returns (g: History, s: Supervisor)
    requires Plays(h, x) && IsOut(a, h.Now()) && FromMember(a, x) && a.sender != x.Coord()
    requires Collects(h.Now().nodes[x.Coord()], x, gen) && Spare(h.Now().nodes[x.Coord()], x.timeout, x.period)
    requires HoldsClique(a.view, x) && (a.view.state == Change || a.view.state == Accept)
    requires a.sender in h.Now().nodes[x.Coord()].others
             && HoldsClique(h.Now().nodes[x.Coord()].others[a.sender].view, x)
    ensures PlaysOn(h, g, x) && g.Now() == Cluster(h.Now().nodes[x.Coord() := s], h.Now().sent)
    ensures Collects(s, x, gen) && Spare(s, x.timeout, x.period)
            && s.incarnation == h.Now().nodes[x.Coord()].incarnation
    ensures s.others == h.Now().nodes[x.Coord()].others[a.sender := NodeInfo(a.incarnation, a.view, 0)]
  {
    assert InTeam(h.Now(), x, x.Coord());
    g, s := DoReceive(h, x, x.Coord(), x.period, a);
    CoordCollects(h.Now().nodes[x.Coord()], x, gen, a, s);
  }

  /** Member i sends, and the coordinator gets its ping. */
  lemma CollectOne(h: History, x: Setting, gen: nat, q: Ping, done: set<nat>, i: nat) returns (g: History)
    requires Plays(h, x) && Collecting(h.Now(), x, gen, done) && IsOut(q, h.Now())
    requires i in x.clique && i != x.Coord() && i !in done
    ensures PlaysOn(h, g, x) && Collecting(g.Now(), x, gen, done + {i}) && IsOut(q, g.Now())
  {
    var k := x.Coord();
    var s, u := h.Now().nodes[k], h.Now().nodes[i];
    assert Answers(s, u, x, gen, false) && InTeam(h.Now(), x, k);
    var g1, a, t := DoSend(h, x, i, x.period);
    TakenIsSent(u, x, gen, t);
    assert g1.Now().nodes[k] == s;
    var g2, s' := HearOne(g1, x, gen, a);
    g := g2;
    CollectedWith(h.Now(), x, gen, done, i, t, a, s', g.Now());
  }

  lemma {:induction false} CollectAll(h: History, x: Setting, gen: nat, q: Ping, done: set<nat>) returns (g: History)
    requires Plays(h, x) && Collecting(h.Now(), x, gen, done)
    requires x.Coord() in done && done <= x.clique
    requires IsOut(q, h.Now())
    ensures PlaysOn(h, g, x) && Collecting(g.Now(), x, gen, x.clique) && IsOut(q, g.Now())
    decreases x.clique - done
  {
    if i :| i in x.clique && i !in done {
      var g1 := CollectOne(h, x, gen, q, done, i);
      g := CollectAll(g1, x, gen, q, done + {i});
    } else {
      assert done == x.clique;
      g := h;
    }
  }

  // ------------------------------------------------------------- committing

  lemma AllHaveAccepted(s: Supervisor, x: Setting, q: Ping, s': Supervisor)
    requires Inv(s) && s.view.state == Accept && s.self == x.Coord() && HoldsClique(s.view, x)
    requires q.view.state == Accept && q.view.coord == s.self && q.view.accepted == s.view.accepted && s' == React(s, q)
    requires x.clique <= s.view.nodesSeen
    requires forall n | n in x.clique && n != s.self ::
               n in s.others && HoldsClique(s.others[n].view, x) && s.others[n].view.accepted == s.view.accepted
    ensures s' == CommitClique(s)
  {
    assert CliqueHasAccepted(s, s.view.accepted);
  }

  /** The coordinator, which knows that all have accepted, gets its own proposal. */
  lemma CoordCommits(s: Supervisor, x: Setting, gen: nat, q: Ping, s': Supervisor)
    requires Good(x) && Member(s, x) && s.self == x.Coord() && Collects(s, x, gen)
    requires IsProposal(q, x, gen) && Hears(s, q, s')
    requires forall n | n in x.clique && n != s.self ::
               n in s.others && HoldsClique(s.others[n].view, x) && s.others[n].view.accepted == gen
    ensures HasCommitted(s', x, gen) && HoldsClique(s'.view, x) && !Marked(s')
  {
    if s.view.state == Accept {
      forall n | n in x.clique ensures n in s.view.nodesSeen { SeesMember(s, x, n); }
      AllHaveAccepted(s, x, q, s');
    }
  }

  /** The members, done being those that have delivered generation gen. */
  predicate Following(c: Cluster, x: Setting, gen: nat, done: set<nat>) {
    && InRangeOf(c, x)
    && (forall i | i in x.clique && i in done :: LastIs(c.nodes[i].delivered, Membership(gen, x.clique)))
    && (forall i | i in x.clique && i !in done :: HasTaken(c.nodes[i], x, gen) && Spare(c.nodes[i], x.timeout, 0))
  }

  lemma CommittedWith(c: Cluster, x: Setting, gen: nat, s: Supervisor, d: Cluster)
    requires Collecting(c, x, gen, x.clique) && LastIs(s.delivered, Membership(gen, x.clique))
    requires d.nodes == c.nodes[x.Coord() := s]
    ensures Following(d, x, gen, {x.Coord()})
  {
    forall i | i in x.clique && i != x.Coord() ensures HasTaken(d.nodes[i], x, gen) && Spare(d.nodes[i], x.timeout, 0) {
      assert Answers(c.nodes[x.Coord()], c.nodes[i], x, gen, i in x.clique);
    }
  }

  /** The coordinator gets its own proposal and commits. */
  lemma CommitNow(h: History, x: Setting, gen: nat, q: Ping) returns (g: History)
    requires Plays(h, x) && Collecting(h.Now(), x, gen, x.clique)
    requires IsOut(q, h.Now()) && IsProposal(q, x, gen)
    ensures PlaysOn(h, g, x) && Following(g.Now(), x, gen, {x.Coord()})
    ensures var s := g.Now().nodes[x.Coord()];
            HasCommitted(s, x, gen) && HoldsClique(s.view, x) && !Marked(s) && Spare(s, x.timeout, x.period)
  {
    var k := x.Coord();
    var s := h.Now().nodes[k];
    assert InTeam(h.Now(), x, k);
    forall n | n in x.clique && n != k
      ensures n in s.others && HoldsClique(s.others[n].view, x) && s.others[n].view.accepted == gen
    {
      assert Answers(s, h.Now().nodes[n], x, gen, n in x.clique);
    }
    var g1, s' := DoReceive(h, x, k, x.period, q);
    g := g1;
    CoordCommits(s, x, gen, q, s');
    CommittedWith(h.Now(), x, gen, s', g.Now());
  }

  /** r is the ping that tells of the commit. */
  predicate IsCommit(r: Ping, x: Setting, gen: nat) {
    && FromMember(r, x) && r.sender == x.Coord()
    && r.view.state == Commit && HoldsClique(r.view, x) && r.view.committed == gen
  }

  /** The coordinator sends. */
  lemma TellCommit(h: History, x: Setting, gen: nat) returns (g: History, r: Ping)
    requires Plays(h, x) && Following(h.Now(), x, gen, {x.Coord()})
    requires HasCommitted(h.Now().nodes[x.Coord()], x, gen) && !Marked(h.Now().nodes[x.Coord()])
    requires HoldsClique(h.Now().nodes[x.Coord()].view, x) && Spare(h.Now().nodes[x.Coord()], x.timeout, x.period)
    ensures PlaysOn(h, g, x) && Following(g.Now(), x, gen, {x.Coord()})
    ensures IsOut(r, g.Now()) && IsCommit(r, x, gen)
  {
    var g1, p, s := DoSend(h, x, x.Coord(), x.period);
    g, r := g1, p;
    assert {x.Coord()} + {x.Coord()} == {x.Coord()};
    FollowedWith(h.Now(), x, gen, {x.Coord()}, x.Coord(), s, g.Now());
  }

  lemma FollowedWith(c: Cluster, x: Setting, gen: nat, done: set<nat>, i: nat, u: Supervisor, d: Cluster)
    requires Following(c, x, gen, done) && i in x.clique && d.nodes == c.nodes[i := u]
    requires LastIs(u.delivered, Membership(gen, x.clique))
    ensures Following(d, x, gen, done + {i})
  {
  }

  /** A member that has accepted follows the commit. */
  lemma FollowsCommit(t: Supervisor, x: Setting, gen: nat, r: Ping, u: Supervisor)
    requires HasTaken(t, x, gen) && t.self != x.Coord() && IsCommit(r, x, gen) && Hears(t, r, u)
    ensures LastIs(u.delivered, Membership(gen, x.clique))
  {
  }

  lemma FollowOne(h: History, x: Setting, gen: nat, r: Ping, done: set<nat>, i: nat) returns (g: History)
    requires Plays(h, x) && Following(h.Now(), x, gen, done)
    requires IsOut(r, h.Now()) && IsCommit(r, x, gen) && x.Coord() in done && i in x.clique && i !in done
    ensures PlaysOn(h, g, x) && Following(g.Now(), x, gen, done + {i}) && IsOut(r, g.Now())
  {
    assert InTeam(h.Now(), x, i);
    var g1, u := DoReceive(h, x, i, 0, r);
    g := g1;
    FollowsCommit(h.Now().nodes[i], x, gen, r, u);
    FollowedWith(h.Now(), x, gen, done, i, u, g.Now());
  }

  lemma {:induction false} FollowAll(h: History, x: Setting, gen: nat, r: Ping, done: set<nat>) returns (g: History)
    requires Plays(h, x) && Following(h.Now(), x, gen, done) && done <= x.clique
    requires IsOut(r, h.Now()) && IsCommit(r, x, gen) && x.Coord() in done
    ensures PlaysOn(h, g, x) && Following(g.Now(), x, gen, x.clique)
    decreases x.clique - done
  {
    if i :| i in x.clique && i !in done {
      var g1 := FollowOne(h, x, gen, r, done, i);
      g := FollowAll(g1, x, gen, r, done + {i});
    } else {
      assert done == x.clique;
      g := h;
    }
  }

  // --------------------------------------------------------- all of it, in turn

  predicate SameGens(v: View, w: View) {
    v.accepted == w.accepted && v.committed == w.committed
  }

  /** The coordinator knows the generations of the members, and no member has
      accepted anything since base. */
  predicate Ready(c: Cluster, x: Setting, base: seq<Supervisor>, time: int) {
    && InRangeOf(c, x) && |base| == |c.nodes|
    && (forall i | i in x.clique ::
          && c.nodes[i].self == i && c.nodes[i].accepts == base[i].accepts && Spare(c.nodes[i], x.timeout, time)
          && (i != x.Coord() ==> KnowsGens(c.nodes[x.Coord()], c.nodes[i])))
  }

  predicate AllMovable(c: Cluster, x: Setting) {
    forall i | i in x.clique && i < |c.nodes| :: Movable(c.nodes[i])
  }

  lemma StartsGathering(c: Cluster, x: Setting, base: seq<Supervisor>, s: Supervisor, d: Cluster)
    requires Ready(c, x, base, 4 * x.period) && AllMovable(c, x) && x.period >= 0
    requires SendsAs(c.nodes[x.Coord()], x, s) && Spare(s, x.timeout, 3 * x.period)
             && d.nodes == c.nodes[x.Coord() := s]
    ensures Gathering(d, x, base, {x.Coord()})
  {
    forall i | i in x.clique && i != x.Coord()
      ensures d.nodes[i].self == i && Gathered(s, d.nodes[i], x, base[i], false)
    {
      assert KnowsGens(c.nodes[x.Coord()], c.nodes[i]) && Movable(c.nodes[i]);
    }
  }

  /** Nobody had accepted this membership before. */
  predicate IsNew(base: seq<Supervisor>, x: Setting, gen: nat) {
    forall i | i in x.clique && i < |base| :: Membership(gen, x.clique) !in base[i].accepts
  }

  lemma BelowIsNew(t: Supervisor, gen: nat, k: set<nat>)
    requires Inv(t) && t.view.accepted < gen
    ensures Membership(gen, k) !in t.accepts
  {
  }

  lemma ProposingIsNew(c: Cluster, x: Setting, base: seq<Supervisor>)
    requires Team(c, x) && Proposing(c, x, base, 2 * x.period)
    ensures IsNew(base, x, c.nodes[x.Coord()].view.accepted)
  {
    var gen := c.nodes[x.Coord()].view.accepted;
    forall i | i in x.clique && i < |base| ensures Membership(gen, x.clique) !in base[i].accepts {
      if i != x.Coord() {
        assert Awaits(c.nodes[x.Coord()], c.nodes[i], x, base[i]) && InTeam(c, x, i);
        BelowIsNew(c.nodes[i], gen, x.clique);
      }
    }
  }

  /** From members that can all move to a proposal. */
  lemma ComeToPropose(h: History, x: Setting, base: seq<Supervisor>) returns (g: History)
    requires Plays(h, x) && Ready(h.Now(), x, base, 4 * x.period) && AllMovable(h.Now(), x)
    ensures PlaysOn(h, g, x) && Proposing(g.Now(), x, base, 2 * x.period)
  {
    var g1, p, s := DoSend(h, x, x.Coord(), 4 * x.period);
    StartsGathering(h.Now(), x, base, s, g1.Now());
    var g2 := GatherAll(g1, x, base, {x.Coord()});
    g := Propose(g2, x, base);
  }

  /** From a proposal to the commit of the coordinator. */
  lemma ComeToCommit(h: History, x: Setting, base: seq<Supervisor>) returns (g: History, gen: nat)
    requires Plays(h, x) && Proposing(h.Now(), x, base, 2 * x.period)
    ensures PlaysOn(h, g, x) && Following(g.Now(), x, gen, x.clique) && IsNew(base, x, gen)
  {
    ProposingIsNew(h.Now(), x, base);
    var g1, q := Announce(h, x, base);
    gen := q.view.accepted;
    var g2 := TakeAll(g1, x, gen, q, {x.Coord()});
    TakenIsCollecting(g2.Now(), x, gen);
    var g3 := CollectAll(g2, x, gen, q, {x.Coord()});
    var g4 := CommitNow(g3, x, gen, q);
    var g5, r := TellCommit(g4, x, gen);
    g := FollowAll(g5, x, gen, r, {x.Coord()});
  }

  /** Members that can all move come to deliver a new membership. */
  lemma MovableAgree(h: History, x: Setting, base: seq<Supervisor>) returns (g: History, gen: nat)
    requires Plays(h, x) && Ready(h.Now(), x, base, 4 * x.period) && AllMovable(h.Now(), x)
    ensures GoesOn(h, g, x) && Following(g.Now(), x, gen, x.clique) && IsNew(base, x, gen)
  {
    var g1 := ComeToPropose(h, x, base);
    g, gen := ComeToCommit(g1, x, base);
  }

  // ------------------------------------------------------ a change of coordinator

  /** Members outside done that cannot move have stored another coordinator for
      member j. */
  predicate Stirred(c: Cluster, x: Setting, j: nat, done: set<nat>) {
    forall i | i in x.clique && i < |c.nodes| ::
      || Movable(c.nodes[i])
      || (i !in done && i != j && c.nodes[i].view.state != Unknown
          && j in c.nodes[i].others && c.nodes[i].others[j].view.coord != x.Coord())
  }

  /** Node i becomes t, with the same generations. */
  lemma ReadyWith(c: Cluster, x: Setting, base: seq<Supervisor>, time: int, i: nat, t: Supervisor, d: Cluster)
    requires Ready(c, x, base, time) && i in x.clique && d.nodes == c.nodes[i := t]
    requires t.self == i && t.accepts == c.nodes[i].accepts && SameGens(t.view, c.nodes[i].view)
             && Spare(t, x.timeout, time)
    requires i == x.Coord() ==> forall n | n in x.clique && n in c.nodes[i].others ::
               n in t.others && SameGens(t.others[n].view, c.nodes[i].others[n].view)
    ensures Ready(d, x, base, time)
  {
    forall n | n in x.clique && n != x.Coord() ensures KnowsGens(d.nodes[x.Coord()], d.nodes[n]) {
      assert KnowsGens(c.nodes[x.Coord()], c.nodes[n]);
    }
  }

  /** A member that cannot move stores the new coordinator of another, and is
      marked. */
  lemma Stirs(t: Supervisor, x: Setting, p: Ping, u: Supervisor)
    requires !Movable(t) && p.sender != t.self && Hears(t, p, u) && p.view.state == Change
    requires t.others[p.sender].view.coord != p.view.coord
    ensures u == Stored(t, p) && Movable(u)
  {
  }

  lemma StirredWith(c: Cluster, x: Setting, j: nat, done: set<nat>, i: nat, u: Supervisor, d: Cluster)
    requires Stirred(c, x, j, done) && i < |c.nodes| && d.nodes == c.nodes[i := u] && Movable(u)
    ensures Stirred(d, x, j, done + {i})
  {
  }

  lemma StirredIsReady(c: Cluster, x: Setting, base: seq<Supervisor>, time: int, i: nat, p: Ping, d: Cluster)
    requires Ready(c, x, base, time) && i in x.clique && p.sender in x.clique && p.sender != i
             && p.sender in c.nodes[i].others
    requires SameGens(p.view, c.nodes[p.sender].view) && Spare(Stored(c.nodes[i], p), x.timeout, time)
    requires d.nodes == c.nodes[i := Stored(c.nodes[i], p)]
    ensures Ready(d, x, base, time)
  {
    assert i == x.Coord() ==> KnowsGens(c.nodes[i], c.nodes[p.sender]);
    ReadyWith(c, x, base, time, i, Stored(c.nodes[i], p), d);
  }

  /** p is the ping that member j has sent last, after its coordinator changed. */
  predicate IsChange(p: Ping, c: Cluster, x: Setting, j: nat) {
    && IsOut(p, c) && FromMember(p, x) && p.sender == j
    && p.view.state == Change && p.view.coord == x.Coord() && SameGens(p.view, c.nodes[j].view)
  }

  /** Member i, which cannot move, gets ping p. */
  lemma HearChange(h: History, x: Setting, p: Ping, i: nat, time: int) returns (g: History)
    requires Plays(h, x) && i in x.clique && Spare(h.Now().nodes[i], x.timeout, time)
    requires !Movable(h.Now().nodes[i]) && h.Now().nodes[i].view.state != Unknown
    requires IsChange(p, h.Now(), x, p.sender) && p.sender != i && p.sender in h.Now().nodes[i].others
    requires h.Now().nodes[i].others[p.sender].view.coord != x.Coord()
    ensures PlaysOn(h, g, x)
    ensures g.Now() == Cluster(h.Now().nodes[i := Stored(h.Now().nodes[i], p)], h.Now().sent)
    ensures Movable(Stored(h.Now().nodes[i], p)) && Spare(Stored(h.Now().nodes[i], p), x.timeout, time)
  {
    assert InTeam(h.Now(), x, i);
    var g1, u := DoReceive(h, x, i, time, p);
    Stirs(h.Now().nodes[i], x, p, u);
    g := g1;
  }

  predicate Stirring(c: Cluster, x: Setting, base: seq<Supervisor>, j: nat, p: Ping, done: set<nat>) {
    Ready(c, x, base, 4 * x.period) && Stirred(c, x, j, done) && IsChange(p, c, x, j)
  }

  lemma CanBeStirred(c: Cluster, x: Setting, base: seq<Supervisor>, j: nat, p: Ping, done: set<nat>, i: nat)
    requires Stirring(c, x, base, j, p, done) && i in x.clique && i !in done
    ensures i < |c.nodes|
    ensures Movable(c.nodes[i]) ==> Stirring(c, x, base, j, p, done + {i})
    ensures !Movable(c.nodes[i]) ==>
              && i != j && c.nodes[i].view.state != Unknown && Spare(c.nodes[i], x.timeout, 4 * x.period)
              && j in c.nodes[i].others && c.nodes[i].others[j].view.coord != x.Coord()
  {
  }

  lemma StaysStirred(c: Cluster, x: Setting, base: seq<Supervisor>, j: nat, p: Ping, done: set<nat>, i: nat, d: Cluster)
    requires Stirring(c, x, base, j, p, done) && i in x.clique && i != j && i < |c.nodes| && j in c.nodes[i].others
    requires d == Cluster(c.nodes[i := Stored(c.nodes[i], p)], c.sent)
    requires Movable(Stored(c.nodes[i], p)) && Spare(Stored(c.nodes[i], p), x.timeout, 4 * x.period)
    ensures Stirring(d, x, base, j, p, done + {i})
  {
    StirredWith(c, x, j, done, i, Stored(c.nodes[i], p), d);
    StirredIsReady(c, x, base, 4 * x.period, i, p, d);
  }

  lemma StirOne(h: History, x: Setting, base: seq<Supervisor>, j: nat, p: Ping, done: set<nat>, i: nat)
    returns (g: History)
    requires Plays(h, x) && Stirring(h.Now(), x, base, j, p, done) && i in x.clique && i !in done
    ensures PlaysOn(h, g, x) && Stirring(g.Now(), x, base, j, p, done + {i})
  {
    CanBeStirred(h.Now(), x, base, j, p, done, i);
    if Movable(h.Now().nodes[i]) {
      g := h;
    } else {
      g := HearChange(h, x, p, i, 4 * x.period);
      StaysStirred(h.Now(), x, base, j, p, done, i, g.Now());
    }
  }

  lemma {:induction false} StirAll(h: History, x: Setting, base: seq<Supervisor>, j: nat, p: Ping, done: set<nat>)
    returns (g: History)
    requires Plays(h, x) && Stirring(h.Now(), x, base, j, p, done) && done <= x.clique
    ensures PlaysOn(h, g, x) && Ready(g.Now(), x, base, 4 * x.period) && AllMovable(g.Now(), x)
    decreases x.clique - done
  {
    if i :| i in x.clique && i !in done {
      var g1 := StirOne(h, x, base, j, p, done, i);
      g := StirAll(g1, x, base, j, p, done + {i});
    } else {
      assert done == x.clique;
      g := h;
    }
  }
}
