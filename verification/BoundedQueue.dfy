/**
 * The sequential meaning of every index ring: a FIFO queue that refuses to grow past a bound.
 * A history of completed operations is legal when replaying it on such a queue gives every
 * operation the result that the history records for it.
 */
module BoundedQueue {
  import opened Options

  datatype Event<T> =
    | PushOk(x: T)
    | PushFull(x: T)
    | PopOk(x: T)
    | DropOk               // a pop that does not look at the element
    | FrontOk(x: T)
    | SawEmpty             // a pop, drop or front that found nothing

  /** The queue after one event, or None when the event records a wrong result. */
  function Apply<T(==)>(bound: nat, q: seq<T>, e: Event<T>): Option<seq<T>> {
    match e
    case PushOk(x) => if |q| < bound then Some(q + [x]) else None
    case PushFull(_) => if |q| < bound then None else Some(q)
    case PopOk(x) => if |q| > 0 && q[0] == x then Some(q[1..]) else None
    case DropOk => if |q| > 0 then Some(q[1..]) else None
    case FrontOk(x) => if |q| > 0 && q[0] == x then Some(q) else None
    case SawEmpty => if |q| == 0 then Some(q) else None
  }

  /** The queue after a whole history that starts from the empty queue. */
  function Replay<T(==)>(bound: nat, log: seq<Event<T>>): Option<seq<T>> {
    if log == [] then Some([])
    else
      match Replay(bound, log[..|log| - 1])
      case None => None
      case Some(q) => Apply(bound, q, log[|log| - 1])
  }

  lemma ReplayMore<T>(bound: nat, log: seq<Event<T>>, e: Event<T>)
    requires Replay(bound, log).Some?
    ensures Replay(bound, log + [e]) == Apply(bound, Replay(bound, log).value, e)
  {
    assert (log + [e])[..|log|] == log;
  }

  /** What the pushes of a history put in. */
  function Pushed<T>(log: seq<Event<T>>): seq<T> {
    if log == [] then []
    else Pushed(log[..|log| - 1]) + (if log[|log| - 1].PushOk? then [log[|log| - 1].x] else [])
  }

  /** How many elements left the queue. */
  function Left<T>(log: seq<Event<T>>): nat {
    if log == [] then 0
    else Left(log[..|log| - 1]) + (if log[|log| - 1].PopOk? || log[|log| - 1].DropOk? then 1 else 0)
  }

  /** A legal history delivers what was pushed, in order, and holds back at most `bound`. */
  lemma {:induction false} LegalHistoryIsFifo<T>(bound: nat, log: seq<Event<T>>)
    requires Replay(bound, log).Some?
    ensures Left(log) <= |Pushed(log)| <= Left(log) + bound
    ensures Replay(bound, log).value == Pushed(log)[Left(log)..]
    ensures log != [] && log[|log| - 1].PopOk? ==> log[|log| - 1].x == Pushed(log)[Left(log) - 1]
    ensures log != [] && log[|log| - 1].FrontOk? ==>
      Left(log) < |Pushed(log)| && log[|log| - 1].x == Pushed(log)[Left(log)]
  {
    if log != [] {
      LegalHistoryIsFifo(bound, log[..|log| - 1]);
    }
  }

  predicate ByProducer<T>(e: Event<T>) { e.PushOk? || e.PushFull? }

  /** The events of one of the two threads, in order. */
  function OfThread<T>(producer: bool, log: seq<Event<T>>): seq<Event<T>> {
    if log == [] then []
    else
      var e := log[|log| - 1];
      OfThread(producer, log[..|log| - 1]) + (if ByProducer(e) == producer then [e] else [])
  }

  lemma OfThreadMore<T>(producer: bool, log: seq<Event<T>>, e: Event<T>)
    ensures OfThread(producer, log + [e]) ==
            OfThread(producer, log) + (if ByProducer(e) == producer then [e] else [])
  {
    assert (log + [e])[..|log|] == log;
  }
}
