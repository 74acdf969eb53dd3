/**
 The queue of requests of a daemon (common/lib/daemon_request_queue.c). A
 request stands for the message and its sender.
 */
module RequestQueue {
  import opened Common

  datatype State = NoRequest | Pending | Interrupted | InterruptedAndPending

  /** events is the semaphore that wakes the worker thread. */
  datatype Queue<R> = Queue(state: State, current: Option<R>, pending: Option<R>, events: nat)

  function Fresh<R>(): Queue<R> {
    Queue(NoRequest, None, None, 0)
  }

  /** daemon_request_queue_add_request; the program asserts the precondition. */
  function AddRequest<R>(q: Queue<R>, r: R): Queue<R>
    requires q.state == NoRequest || q.state == Interrupted
  {
    var p := q.(events := q.events + 1);
    if q.state == NoRequest then p.(state := Pending, current := Some(r))
    else p.(state := InterruptedAndPending, pending := Some(r))
  }

  /** daemon_request_queue_add_interrupt; the second part of the result tells
      whether the interrupt is acknowledged. */
  function AddInterrupt<R>(q: Queue<R>): (Queue<R>, bool)
    requires q.state != Interrupted
  {
    if q.state == NoRequest then (q, false) else (q.(state := Interrupted), true)
  }

  /** The pending request takes the place of the interrupted one. */
  function Promote<R>(q: Queue<R>): Queue<R> {
    q.(state := Pending, current := q.pending, pending := None)
  }

  /** One turn of the loop of daemon_request_queue_get_request, when the worker
      thread is woken. */
  function GetRequest<R>(q: Queue<R>): (Queue<R>, Option<R>)
    requires q.events > 0
  {
    var p := q.(events := q.events - 1);
    match q.state
    case NoRequest => (p, None)
    case Pending => (p, q.current)
    case Interrupted => (p.(state := NoRequest), None)
    case InterruptedAndPending => (Promote(p), q.pending)
  }

  /** daemon_request_queue_end_request */
  function EndRequest<R>(q: Queue<R>): Queue<R>
    requires q.state != NoRequest
  {
    if q.state == InterruptedAndPending then Promote(q) else q.(state := NoRequest)
  }

  /** daemon_request_queue_reply sends the reply unless the request has been
      interrupted. */
  predicate Replies<R>(q: Queue<R>)
    requires q.state != NoRequest
  {
    q.state == Pending
  }

  /** The queue as the threads update it under its lock. */
  class DaemonQueue<R> {
    var state: State
    var current: Option<R>
    var pending: Option<R>
    var events: nat

    ghost function Value(): Queue<R>
      reads this
    {
      Queue(state, current, pending, events)
    }

    constructor ()
      ensures Value() == Fresh()
    {
      state, current, pending, events := NoRequest, None, None, 0;
    }

    method Add(r: R)
      requires state == NoRequest || state == Interrupted
      modifies this
      ensures Value() == AddRequest(old(Value()), r)
    {
      match state {
        case NoRequest => current, state := Some(r), Pending;
        case Interrupted => pending, state := Some(r), InterruptedAndPending;
      }
      events := events + 1;
    }

    method Interrupt() returns (acknowledged: bool)
      requires state != Interrupted
      modifies this
      ensures (Value(), acknowledged) == AddInterrupt(old(Value()))
    {
      acknowledged := false;
      match state {
        case NoRequest =>
        case Pending => acknowledged, state := true, Interrupted;
        case InterruptedAndPending => acknowledged, state := true, Interrupted;
      }
    }

    method Get() returns (request: Option<R>)
      requires events > 0
      modifies this
      ensures (Value(), request) == GetRequest(old(Value()))
    {
      events := events - 1;
      request := None;
      match state {
        case NoRequest =>
        case Pending => request := current;
        case Interrupted => state := NoRequest;
        case InterruptedAndPending =>
          current, pending, state := pending, None, Pending;
          request := current;
      }
    }

    method Reply() returns (replied: bool)
      requires state != NoRequest
      modifies this
      ensures replied == Replies(old(Value()))
      ensures Value() == EndRequest(old(Value()))
    {
      replied := state == Pending;
      match state {
        case Pending => state := NoRequest;
        case Interrupted => state := NoRequest;
        case InterruptedAndPending => current, pending, state := pending, None, Pending;
      }
    }
  }
}
