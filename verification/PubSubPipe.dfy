/**
 * pubsub/my_pubsub.go: one subscriber's pipeline. A message goes through the channel `in`, the growing
 * buffer of dynBuffer, the channel `out` and the goroutine that runs the callback.
 */
module PubSubPipe {
  datatype Subject = Subject(name: string)

  /** A message, told apart by the call of Publish that sends it. */
  datatype Msg = Msg(call: nat)

  const CAP := 100

  /** The loop of dynBuffer, the loop of write, or neither any more. */
  datatype Pump = Running | Draining | Exited

  datatype Worker = Idle | Got(m: Msg) | Calling(m: Msg) | Gone

  datatype Sub = Sub(
    subj: Subject, owner: nat, registered: bool, alive: bool,
    inq: seq<Msg>, inClosed: bool, buf: seq<Msg>, pump: Pump, out: seq<Msg>, outClosed: bool, worker: Worker,
    sent: seq<Msg>,      // everything ever sent into `in`
    taken: seq<Msg>,     // everything ever received from `out`
    delivered: seq<Msg>) // everything the callback has been given

  function NewSub(subj: Subject, owner: nat): Sub {
    Sub(subj, owner, false, true, [], false, [], Running, [], false, Idle, [], [], [])
  }

  datatype Move =
    | PumpReceive | PumpSeesClose | PumpSend | DrainEnds
    | WorkerTakes | WorkerChecks | WorkerReturns | WorkerEnds

  predicate CanMove(s: Sub, e: Move) {
    match e
    case PumpReceive => s.pump.Running? && s.inq != []
    case PumpSeesClose => s.pump.Running? && s.inq == [] && s.inClosed
    case PumpSend => (s.pump.Running? || s.pump.Draining?) && s.buf != [] && |s.out| < CAP
    case DrainEnds => s.pump.Draining? && s.buf == []
    case WorkerTakes => s.worker.Idle? && s.out != []
    case WorkerChecks => s.worker.Got?
    case WorkerReturns => s.worker.Calling?
    case WorkerEnds => s.worker.Idle? && s.out == [] && s.outClosed
  }

  function Moved(s: Sub, e: Move): Sub
    requires CanMove(s, e)
  {
    match e
    case PumpReceive => s.(inq := s.inq[1..], buf := s.buf + [s.inq[0]])
    case PumpSeesClose => if s.buf != [] then s.(pump := Draining) else s.(outClosed := true, pump := Exited)
    case PumpSend => s.(out := s.out + [s.buf[0]], buf := s.buf[1..])
    case DrainEnds => s.(outClosed := true, pump := Exited)
    case WorkerTakes => s.(worker := Got(s.out[0]), out := s.out[1..], taken := s.taken + [s.out[0]])
    case WorkerChecks => if s.alive then s.(worker := Calling(s.worker.m)) else s.(worker := Idle)
    case WorkerReturns => s.(worker := Idle, delivered := s.delivered + [s.worker.m])
    case WorkerEnds => s.(worker := Gone)
  }

  /** `sub.in <- msg` */
  function Send(s: Sub, m: Msg): Sub { s.(inq := s.inq + [m], sent := s.sent + [m]) }

  function Pending(w: Worker): seq<Msg> { if w.Got? || w.Calling? then [w.m] else [] }

  function InCallback(w: Worker): seq<Msg> { if w.Calling? then [w.m] else [] }

  /** Nothing is lost, doubled or reordered between the send and the callback's goroutine. */
  ghost predicate Conserved(s: Sub) { s.taken + s.out + s.buf + s.inq == s.sent }

  /** The callback sees a prefix of what was taken, and all of it while the subscription is alive. */
  ghost predicate InOrder(s: Sub) {
    s.delivered + InCallback(s.worker) <= s.taken && (s.alive ==> s.delivered + Pending(s.worker) == s.taken) &&
    (s.worker.Got? ==> s.taken != [] && s.taken[|s.taken| - 1] == s.worker.m)
  }

  /** Each goroutine ends only when all that could reach it has gone through. */
  ghost predicate EndsEmpty(s: Sub) {
    (s.outClosed <==> s.pump.Exited?) && (s.pump.Exited? ==> s.buf == []) &&
    (!s.pump.Running? ==> s.inClosed && s.inq == []) && (s.worker.Gone? ==> s.outClosed && s.out == [])
  }

  ghost predicate PipeInv(s: Sub) { Conserved(s) && InOrder(s) && EndsEmpty(s) }

  /** The part of a subscriber that only joining, leaving and closing change. */
  predicate SameStanding(a: Sub, b: Sub) {
    a.subj == b.subj && a.owner == b.owner && a.registered == b.registered && a.alive == b.alive &&
    a.inClosed == b.inClosed
  }

  lemma MoveKeepsStanding(s: Sub, e: Move)
    requires CanMove(s, e)
    ensures SameStanding(Moved(s, e), s) && Moved(s, e).sent == s.sent
  {
  }

  lemma MoveKeepsConserved(s: Sub, e: Move)
    requires Conserved(s) && CanMove(s, e)
    ensures Conserved(Moved(s, e))
  {
  }

  lemma MoveKeepsPipe(s: Sub, e: Move)
    requires PipeInv(s) && CanMove(s, e)
    ensures PipeInv(Moved(s, e))
  {
    MoveKeepsConserved(s, e);
    MoveKeepsOrder(s, e);
  }

  lemma MoveKeepsOrder(s: Sub, e: Move)
    requires InOrder(s) && CanMove(s, e)
    ensures InOrder(Moved(s, e))
  {
  }

  lemma SendKeepsPipe(s: Sub, m: Msg)
    requires PipeInv(s) && !s.inClosed
    ensures PipeInv(Send(s, m))
  {
  }

  predicate Finished(s: Sub) { s.pump.Exited? && s.worker.Gone? }

  /** Whatever happens, the callback gets messages in the order they were sent, none twice, none skipped. */
  lemma DeliveredIsPrefix(s: Sub)
    requires PipeInv(s)
    ensures s.delivered <= s.sent
  {
  }

  /** Both goroutines gone: the callback has got everything, unless the subscriber left. */
  lemma FinishedMeansDelivered(s: Sub)
    requires PipeInv(s) && Finished(s)
    ensures s.taken == s.sent && (s.alive ==> s.delivered == s.sent)
  {
  }
}
