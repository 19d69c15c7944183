/**
 A bounded pool of reusable objects: every worker owns one object and lends it out
 through a lease; requests wait in a bounded queue that drops its oldest entry. The
 steps of workers and borrowers interleave freely. Objects are named by the worker that
 made them.
 */
module PoolModel {
  import opened Common

  /** A worker's place in its loop. */
  datatype Phase =
    | Idle
    | Taken(request: nat)
    | Leased(request: nat, lease: nat)
    | Refused(lease: nat)
    | Sent(lease: nat)
    | Lent(lease: nat)
    | Received(lease: nat, returned: nat)
    | Unlisted(returned: nat)
  {
    /** Between checkout and the removal of the lease from the table. */
    predicate OnLease() {
      Leased? || Refused? || Sent? || Lent? || Received?
    }

    /** Its object is out of the worker's hands. */
    predicate Away() {
      Sent? || Lent?
    }

    /** Delivered and counted, and its return not yet counted. */
    predicate Counted() {
      Lent? || Received? || Unlisted?
    }

    /** It has a request to answer. */
    predicate Answering() {
      Taken? || Leased?
    }
  }

  datatype Worker = Worker(item: nat, phase: Phase)

  /** The one-slot channel a request is answered on. */
  datatype Slot = Empty | Object(item: nat) | Failure

  datatype Stage =
    | Trying
    | Dropping
    | Waiting
    | Holding(item: nat)
    | Returning(item: nat, lease: nat)
    | Ended

  /**
   One borrowing: from the request until its object is given back. answers: how many
   answers were ever sent to the slot; ticket: when it was queued, next to the others.
   */
  datatype Borrower = Borrower(cancellable: bool, expired: bool, stage: Stage, slot: Slot, answers: nat, ticket: nat)

  /** A lease's one-slot return channel. */
  datatype Lease = Lease(item: nat, slot: Option<nat>, closed: bool)

  /** faults: how often a put ended in one of its error branches. */
  datatype State = State(
    workers: map<nat, Worker>, queue: seq<nat>, queueSize: nat, borrowers: map<nat, Borrower>,
    leases: map<nat, nat>, channels: map<nat, Lease>, nextLease: nat, activeLeases: int, faults: nat,
    nextTicket: nat)

  /** What a borrower's thread does next. */
  datatype Move = Expire | GiveUp | Enqueue | DropOldest | Accept | Abandon | FindLease | GiveBack

  /** What a worker does next. */
  datatype Task = NextRequest | Checkout | Deliver | Refuse | CancelLease | CountLease | Collect | Unlist | Settle

  datatype Event =
    | Get(r: nat, cancellable: bool)
    | TryGet(r: nat)
    | Borrow(r: nat, move: Move)
    | Work(w: nat, task: Task)

  predicate Movable(s: State, r: nat, move: Move) {
    r in s.borrowers &&
    var b := s.borrowers[r];
    match move
    case Expire => b.cancellable
    case GiveUp => b.stage.Trying? && b.expired
    case Enqueue => b.stage.Trying?
    case DropOldest => b.stage.Dropping? && s.queue != []
    case Accept => b.stage.Waiting? && !b.slot.Empty?
    case Abandon => b.stage.Waiting? && b.expired
    case FindLease => b.stage.Holding?
    case GiveBack => b.stage.Returning? && b.stage.lease in s.channels
  }

  predicate Workable(s: State, w: nat, task: Task) {
    w in s.workers &&
    var p := s.workers[w].phase;
    match task
    case NextRequest => p.Idle? && s.queue != []
    case Checkout => p.Taken?
    case Deliver => p.Leased? && p.request in s.borrowers && s.borrowers[p.request].slot.Empty?
    case Refuse => p.Leased? && p.request in s.borrowers && s.borrowers[p.request].expired
    case CancelLease => p.Refused? && p.lease in s.channels
    case CountLease => p.Sent?
    case Collect => p.Lent? && p.lease in s.channels && s.channels[p.lease].slot.Some?
    case Unlist => p.Received? && p.lease in s.channels
    case Settle => p.Unlisted?
  }

  function SetStage(s: State, r: nat, stage: Stage): State
    requires r in s.borrowers
  {
    s.(borrowers := s.borrowers[r := s.borrowers[r].(stage := stage)])
  }

  function SetPhase(s: State, w: nat, phase: Phase): State
    requires w in s.workers
  {
    s.(workers := s.workers[w := s.workers[w].(phase := phase)])
  }

  /** Sends an answer unless the slot is taken. */
  function Answer(s: State, r: nat, answer: Slot): State {
    if r in s.borrowers && s.borrowers[r].slot.Empty? then
      s.(borrowers := s.borrowers[r := s.borrowers[r].(slot := answer, answers := s.borrowers[r].answers + 1)])
    else s
  }

  function Moving(s: State, r: nat, move: Move): State
    requires Movable(s, r, move)
  {
    var b := s.borrowers[r];
    match move
    case Expire => s.(borrowers := s.borrowers[r := b.(expired := true)])
    case GiveUp => SetStage(s, r, Ended)
    case Enqueue =>
      if |s.queue| < s.queueSize then
        s.(queue := s.queue + [r], borrowers := s.borrowers[r := b.(stage := Waiting, ticket := s.nextTicket)],
           nextTicket := s.nextTicket + 1)
      else SetStage(s, r, Dropping)
    case DropOldest => SetStage(Answer(s.(queue := s.queue[1..]), s.queue[0], Failure), r, Trying)
    case Accept =>
      s.(borrowers := s.borrowers[r := b.(slot := Empty, stage := if b.slot.Object? then Holding(b.slot.item) else Ended)])
    case Abandon => SetStage(s, r, Ended)
    case FindLease =>
      var o := b.stage.item;
      if o in s.leases then SetStage(s, r, Returning(o, s.leases[o]))
      else SetStage(s.(faults := s.faults + 1), r, Ended)
    case GiveBack =>
      var o, l := b.stage.item, b.stage.lease;
      var c := s.channels[l];
      if c.slot.None? && !c.closed then SetStage(s.(channels := s.channels[l := c.(slot := Some(o))]), r, Ended)
      else SetStage(s.(leases := s.leases - {o}, faults := s.faults + 1), r, Ended)
  }

  function Working(s: State, w: nat, task: Task): State
    requires Workable(s, w, task)
  {
    var o, p := s.workers[w].item, s.workers[w].phase;
    match task
    case NextRequest => SetPhase(s.(queue := s.queue[1..]), w, Taken(s.queue[0]))
    case Checkout =>
      var l := s.nextLease;
      SetPhase(s.(leases := s.leases[o := l], channels := s.channels[l := Lease(o, None, false)], nextLease := l + 1),
               w, Leased(p.request, l))
    case Deliver => SetPhase(Answer(s, p.request, Object(o)), w, Sent(p.lease))
    case Refuse => SetPhase(s, w, Refused(p.lease))
    case CancelLease =>
      var c := s.channels[p.lease];
      SetPhase(s.(leases := s.leases - {c.item}, channels := s.channels[p.lease := c.(closed := true)]), w, Idle)
    case CountLease => SetPhase(s.(activeLeases := s.activeLeases + 1), w, Lent(p.lease))
    case Collect =>
      var c := s.channels[p.lease];
      SetPhase(s.(channels := s.channels[p.lease := c.(slot := None)]), w, Received(p.lease, c.slot.value))
    case Unlist => SetPhase(s.(leases := s.leases - {s.channels[p.lease].item}), w, Unlisted(p.returned))
    case Settle => s.(activeLeases := s.activeLeases - 1, workers := s.workers[w := Worker(p.returned, Idle)])
  }

  /** A step that is not possible does nothing. */
  function Next(s: State, e: Event): State {
    match e
    case Get(r, cancellable) =>
      if r in s.borrowers then s
      else s.(borrowers := s.borrowers[r := Borrower(cancellable, false, Trying, Empty, 0, 0)])
    case TryGet(r) =>
      if r in s.borrowers then s
      else if |s.queue| < s.queueSize then
        s.(queue := s.queue + [r], borrowers := s.borrowers[r := Borrower(false, false, Waiting, Empty, 0, s.nextTicket)],
           nextTicket := s.nextTicket + 1)
      else s.(borrowers := s.borrowers[r := Borrower(false, false, Ended, Empty, 0, 0)])
    case Borrow(r, move) => if Movable(s, r, move) then Moving(s, r, move) else s
    case Work(w, task) => if Workable(s, w, task) then Working(s, w, task) else s
  }

  /** queueSize not positive: as many places as workers. */
  function NewPool(capacity: nat, queueSize: int): State
    requires capacity > 0
  {
    State(map w | 0 <= w < capacity :: Worker(w, Idle), [], if queueSize <= 0 then capacity else queueSize,
          map[], map[], map[], 0, 0, 0, 0)
  }

  function Run(s: State, es: seq<Event>): State {
    if es == [] then s else Next(Run(s, es[..|es| - 1]), es[|es| - 1])
  }

  /** The gauge: free objects, never below zero. */
  function Available(s: State): int {
    var available := |s.workers| - s.activeLeases;
    if available < 0 then 0 else available
  }
}
