/**
 Requests and interrupts between admind and a daemon
 (admind/src/daemon_api_client.c, common/lib/daemon_request_queue.c): one
 client thread, and on the side of the daemon a pusher thread that feeds the
 queue and a worker thread that serves it. Mailboxes are first in, first out.
 Requests are numbered in the order in which the client sends them.
 */
module RequestProtocol {
  import opened Common
  import opened RequestQueue

  datatype Client = Free | Waiting | Interrupting

  datatype Message = Req(id: nat) | Int

  datatype Response = Reply(id: nat) | Ack(id: nat)

  /** sent is the number of requests sent; busy the request the worker serves;
      responses all responses ever sent to the client. */
  datatype System = System(
    client: Client,
    sent: nat,
    toDaemon: seq<Message>,
    toClient: seq<Response>,
    queue: Queue<nat>,
    busy: Option<nat>,
    responses: seq<Response>)

  datatype Event = ClientSend | ClientInterrupt | ClientReceive | Push | Wake | Finish

  /** The request that an interrupt cancels. */
  function Victim(q: Queue<nat>): Option<nat> {
    if q.state == Pending then q.current else q.pending
  }

  function Respond(s: System, r: Response): System {
    s.(toClient := s.toClient + [r], responses := s.responses + [r])
  }

  /** Whether the assertions of the program hold at event e. The client accepts
      an acknowledgement only after it has sent an interrupt. */
  predicate Asserted(s: System, e: Event) {
    match e
    case ClientReceive => s.client == Waiting && s.toClient != [] ==> s.toClient[0].Reply?
    case Push =>
      s.toDaemon != [] ==>
        if s.toDaemon[0].Req? then s.queue.state == NoRequest || s.queue.state == Interrupted
        else s.queue.state != Interrupted && (s.queue.state != NoRequest ==> Victim(s.queue).Some?)
    case Finish => s.busy.Some? ==> s.queue.state != NoRequest
    case _ => true
  }

  predicate Enabled(s: System, e: Event) {
    match e
    case ClientSend => s.client == Free
    case ClientInterrupt => s.client == Waiting
    case ClientReceive => s.client != Free && s.toClient != []
    case Push => s.toDaemon != []
    case Wake => s.busy == None && s.queue.events > 0
    case Finish => s.busy.Some?
  }

  function Pushed(s: System): System
    requires Enabled(s, Push) && Asserted(s, Push)
  {
    var t := s.(toDaemon := s.toDaemon[1..]);
    match s.toDaemon[0]
    case Req(id) => t.(queue := AddRequest(s.queue, id))
    case Int =>
      var (q, ack) := AddInterrupt(s.queue);
      if ack then Respond(t.(queue := q), Ack(Victim(s.queue).value)) else t.(queue := q)
  }

  function Apply(s: System, e: Event): System
    requires Enabled(s, e) && Asserted(s, e)
  {
    match e
    case ClientSend => s.(client := Waiting, sent := s.sent + 1, toDaemon := s.toDaemon + [Req(s.sent)])
    case ClientInterrupt => s.(client := Interrupting, toDaemon := s.toDaemon + [Int])
    case ClientReceive => s.(client := Free, toClient := s.toClient[1..])
    case Push => Pushed(s)
    case Wake => var (q, r) := GetRequest(s.queue); s.(queue := q, busy := r)
    case Finish =>
      var t := s.(queue := EndRequest(s.queue), busy := None);
      if Replies(s.queue) then Respond(t, Reply(s.busy.value)) else t
  }

  const INITIAL := System(Free, 0, [], [], Fresh<nat>(), None, [])

  /** A run stops at the first assertion that fails, if any. */
  ghost predicate IsRun(run: seq<System>, events: seq<Event>) {
    && |run| == |events| + 1
    && run[0] == INITIAL
    && (forall i | 0 <= i < |events| ::
          Enabled(run[i], events[i]) && Asserted(run[i], events[i]) && run[i + 1] == Apply(run[i], events[i]))
  }

  // ---------------------------------------------------------------- invariant

  /** Where the request sent last is. */
  datatype Stage =
    | Done        // the client has its response
    | Travelling  // in the mailbox of the daemon
    | Queued      // in the queue, not answered
    | Answered    // its response is in the mailbox of the client

  function Last(s: System): nat
    requires s.sent > 0
  {
    s.sent - 1
  }

  /** The queue and the worker agree, and the worker will be woken for what is
      in the queue. */
  predicate QueueOk(q: Queue<nat>, busy: Option<nat>) {
    && (q.state == NoRequest ==> busy == None)
    && (q.state == Pending ==> q.current.Some? && (busy == None || busy == q.current))
    && (q.state == InterruptedAndPending ==> q.pending.Some? && q.events > 0)
    && (q.state != NoRequest && busy == None ==> q.events > 0)
  }

  /** The messages on their way to the daemon: an interrupt that came too late
      for the request before, the request, and its interrupt. */
  function Mail(late: bool, request: bool, interrupt: bool, id: nat): seq<Message> {
    (if late then [Int] else []) + (if request then [Req(id)] else []) + (if interrupt then [Int] else [])
  }

  predicate StageOk(s: System, stage: Stage, late: bool) {
    match stage
    case Done =>
      && s.client == Free && s.toClient == []
      && s.toDaemon == Mail(late, false, false, 0)
      && (s.queue.state == NoRequest || (s.queue.state == Interrupted && !late))
    case Travelling =>
      && s.client != Free && s.toClient == [] && s.sent > 0
      && s.toDaemon == Mail(late, true, s.client == Interrupting, Last(s))
      && (s.queue.state == NoRequest || (s.queue.state == Interrupted && !late))
    case Queued =>
      && s.client != Free && s.toClient == [] && s.sent > 0
      && s.toDaemon == Mail(false, false, s.client == Interrupting, 0)
      && (s.queue.state == Pending || s.queue.state == InterruptedAndPending)
      && Victim(s.queue) == Some(Last(s))
    case Answered =>
      && s.client != Free && s.sent > 0 && |s.toClient| == 1 && s.toClient[0].id == Last(s)
      && (s.toClient[0].Ack? ==>
            s.client == Interrupting && s.toDaemon == [] && (s.queue.state == Interrupted || s.queue.state == NoRequest))
      && (s.toClient[0].Reply? ==>
            s.queue.state == NoRequest && (s.toDaemon == [] || (s.toDaemon == [Int] && s.client == Interrupting)))
      && (s.client == Waiting ==> s.toDaemon == [])
  }

  /** The responses sent are one for each request, in the order of requests. */
  predicate ResponsesOk(s: System, stage: Stage) {
    && |s.responses| == (if stage == Done || stage == Answered then s.sent else s.sent - 1)
    && (forall i | 0 <= i < |s.responses| :: s.responses[i].id == i)
    && (stage == Answered ==> |s.toClient| == 1 && s.responses != [] && s.responses[|s.responses| - 1] == s.toClient[0])
  }

  predicate InvAt(s: System, stage: Stage, late: bool) {
    QueueOk(s.queue, s.busy) && StageOk(s, stage, late) && ResponsesOk(s, stage)
  }

  ghost predicate Inv(s: System) {
    exists stage, late :: InvAt(s, stage, late)
  }

  /** No assertion of the queue or of the client can fail. */
  lemma AssertionsHold(s: System, e: Event)
    requires Inv(s)
    ensures Asserted(s, e)
  {
    var stage, late :| InvAt(s, stage, late);
  }

  lemma ClientSendKeeps(s: System, stage: Stage, late: bool)
    requires InvAt(s, stage, late) && Enabled(s, ClientSend)
    ensures InvAt(Apply(s, ClientSend), Travelling, late)
  {
  }

  lemma ClientInterruptKeeps(s: System, stage: Stage, late: bool)
    requires InvAt(s, stage, late) && Enabled(s, ClientInterrupt)
    ensures InvAt(Apply(s, ClientInterrupt), stage, late)
  {
  }

  lemma ClientReceiveKeeps(s: System, stage: Stage, late: bool)
    requires InvAt(s, stage, late) && Enabled(s, ClientReceive) && Asserted(s, ClientReceive)
    ensures InvAt(Apply(s, ClientReceive), Done, s.toDaemon != [])
  {
  }

  lemma PushKeeps(s: System, stage: Stage, late: bool)
    requires InvAt(s, stage, late) && Enabled(s, Push) && Asserted(s, Push)
    ensures Inv(Apply(s, Push))
  {
    if stage == Travelling {
      PushTravelling(s, late);
    } else if stage == Queued {
      PushQueued(s, late);
    } else {
      assert InvAt(Apply(s, Push), stage, false);
    }
  }

  lemma PushTravelling(s: System, late: bool)
    requires InvAt(s, Travelling, late) && Enabled(s, Push) && Asserted(s, Push)
    ensures Inv(Apply(s, Push))
  {
    assert InvAt(Apply(s, Push), if late then Travelling else Queued, false);
  }

  lemma PushQueued(s: System, late: bool)
    requires InvAt(s, Queued, late) && Enabled(s, Push) && Asserted(s, Push)
    ensures Inv(Apply(s, Push))
  {
    assert InvAt(Apply(s, Push), Answered, false);
  }

  lemma WakeKeeps(s: System, stage: Stage, late: bool)
    requires InvAt(s, stage, late) && Enabled(s, Wake)
    ensures InvAt(Apply(s, Wake), stage, late)
  {
  }

  lemma FinishKeeps(s: System, stage: Stage, late: bool)
    requires InvAt(s, stage, late) && Enabled(s, Finish) && Asserted(s, Finish)
    ensures Inv(Apply(s, Finish))
  {
    var t := Apply(s, Finish);
    if stage == Queued && s.queue.state == Pending {
      assert InvAt(t, Answered, false);
    } else {
      assert InvAt(t, stage, late);
    }
  }

  lemma StepKeepsInv(s: System, e: Event)
    requires Inv(s) && Enabled(s, e) && Asserted(s, e)
    ensures Inv(Apply(s, e))
  {
    var stage, late :| InvAt(s, stage, late);
    match e {
      case ClientSend => ClientSendKeeps(s, stage, late);
      case ClientInterrupt => ClientInterruptKeeps(s, stage, late);
      case ClientReceive => ClientReceiveKeeps(s, stage, late);
      case Push => PushKeeps(s, stage, late);
      case Wake => WakeKeeps(s, stage, late);
      case Finish => FinishKeeps(s, stage, late);
    }
  }

  lemma {:induction false} RunKeepsInv(run: seq<System>, events: seq<Event>, n: nat)
    requires IsRun(run, events) && n <= |events|
    ensures Inv(run[n])
  {
    if n == 0 {
      assert InvAt(INITIAL, Done, false);
    } else {
      RunKeepsInv(run, events, n - 1);
      StepKeepsInv(run[n - 1], events[n - 1]);
    }
  }

  // ------------------------------------------------------------ main theorems

  /** In every run, no assertion of the queue or of the client ever fails. */
  lemma NoAssertionFails(run: seq<System>, events: seq<Event>, n: nat, e: Event)
    requires IsRun(run, events) && n <= |events|
    ensures Asserted(run[n], e)
  {
    RunKeepsInv(run, events, n);
    AssertionsHold(run[n], e);
  }

  /** In every run, the responses sent are one per request and in the order of
      the requests: a client with no request outstanding has had exactly one
      response to each of its requests, and otherwise only the last request may
      be without one. */
  lemma OneResponseEach(run: seq<System>, events: seq<Event>, n: nat)
    requires IsRun(run, events) && n <= |events|
    ensures forall i | 0 <= i < |run[n].responses| :: run[n].responses[i].id == i
    ensures run[n].client == Free ==> |run[n].responses| == run[n].sent && run[n].toClient == []
    ensures run[n].client != Free ==> |run[n].responses| == run[n].sent - (if run[n].toClient == [] then 1 else 0)
  {
    RunKeepsInv(run, events, n);
    var stage, late :| InvAt(run[n], stage, late);
  }

  /** Whatever the client receives answers the request it is waiting for, even
      when its interrupts have crossed replies on the way. */
  lemma ReceivedIsForLast(run: seq<System>, events: seq<Event>, n: nat)
    requires IsRun(run, events) && n < |events| && events[n] == ClientReceive
    ensures run[n].toClient[0].id == run[n].sent - 1
    ensures run[n].toClient[0].Ack? ==> run[n].client == Interrupting
    ensures run[n + 1].toClient == []
  {
    RunKeepsInv(run, events, n);
    var stage, late :| InvAt(run[n], stage, late);
  }

  /** A worker replies to a request only when that request is the last one sent
      and has had no response; a request that has been acknowledged as
      interrupted never gets a reply. */
  lemma RepliesAreWanted(run: seq<System>, events: seq<Event>, n: nat)
    requires IsRun(run, events) && n < |events| && events[n] == Finish && Replies(run[n].queue)
    ensures run[n].client != Free && run[n].busy == Some(run[n].sent - 1)
    ensures forall i | 0 <= i < |run[n].responses| :: run[n].responses[i].id != run[n].busy.value
  {
    RunKeepsInv(run, events, n);
    var stage, late :| InvAt(run[n], stage, late);
  }

  // ----------------------------------------------------------------- progress

  predicate DaemonEvent(e: Event) {
    e == Push || e == Wake || e == Finish
  }

  /** The steps the daemon can still make on its own are bounded. */
  function Work(s: System): nat {
    4 * |s.toDaemon| + 2 * s.queue.events + if s.busy.Some? then 1 else 0
  }

  lemma WorkDrops(s: System, e: Event)
    requires Inv(s) && DaemonEvent(e) && Enabled(s, e) && Asserted(s, e)
    ensures Work(Apply(s, e)) < Work(s)
  {
    var stage, late :| InvAt(s, stage, late);
  }

  /** No wake-up is lost: while the client waits and nothing has come back, some
      thread of the daemon can run. */
  lemma WaitingIsServed(s: System)
    requires Inv(s) && s.client != Free && s.toClient == []
    ensures Enabled(s, Push) || Enabled(s, Wake) || Enabled(s, Finish)
  {
    var stage, late :| InvAt(s, stage, late);
  }

  /** The state after the events, all of them enabled. */
  ghost predicate Reaches(s: System, events: seq<Event>, t: System)
    decreases |events|
  {
    if events == [] then t == s
    else Enabled(s, events[0]) && Asserted(s, events[0]) && Reaches(Apply(s, events[0]), events[1..], t)
  }

  /** Any schedule of the daemon that runs out of steps leaves the client with
      its response, and no schedule is longer than Work. */
  lemma {:induction false} DaemonAnswers(s: System, events: seq<Event>, t: System)
    requires Inv(s) && s.client != Free
    requires Reaches(s, events, t) && (forall i | 0 <= i < |events| :: DaemonEvent(events[i]))
    ensures |events| + Work(t) <= Work(s)
    ensures (forall e | DaemonEvent(e) :: !Enabled(t, e)) ==> |t.toClient| == 1 && t.toClient[0].id == t.sent - 1
    decreases |events|
  {
    if events == [] {
      var stage, late :| InvAt(s, stage, late);
      if s.toClient == [] {
        WaitingIsServed(s);
      }
    } else {
      var u := Apply(s, events[0]);
      assert DaemonEvent(events[0]);
      WorkDrops(s, events[0]);
      StepKeepsInv(s, events[0]);
      DaemonAnswers(u, events[1..], t);
    }
  }
}
