// bulkhead/bulkhead.go as an interleaving of callers, the worker, the goroutines it spawns
// and Close. Each channel operation is one step; a select takes any ready case and its
// default only when none is ready. A caller makes one Execute and is named by a number,
// which also names its request.
module Bulkhead {
  import opened Basics

  type Id = nat

  datatype Result = Returned(value: int) | Full | ContextError

  datatype Caller =
    | Starting                    // about to test done
    | Trying                      // first select: semaphore, context, done
    | Running                     // running fn itself, holding a semaphore slot
    | Releasing(value: int)       // fn returned; about to release the semaphore slot
    | Enqueueing                  // select on a queue slot
    | Sending                     // holds a queue slot, blocked sending to the worker
    | Waiting                     // holds a queue slot, request handed over, awaiting the reply
    | Leaving(result: Result)     // about to release the queue slot
    | Done(result: Result)

  datatype Runner =
    | Executing                   // running a request's fn, holding a semaphore slot
    | Replying(value: int)        // about to send on the reply channel
    | Unslotting                  // about to release the semaphore slot

  datatype Worker =
    | Absent                      // no queue configured
    | Idle
    | Holding(id: Id)             // received a request, waiting for a semaphore slot
    | Refusing(id: Id, result: Result, drain: bool)  // about to send an error reply
    | Draining
    | Stopped

  datatype Limits = Limits(maxConcurrent: nat, maxQueue: nat)

  /** What the outside world has done: Close, ended contexts, passed queue deadlines. */
  datatype World = World(closed: bool, cancelled: set<Id>, timedOut: set<Id>)

  /** reply holds the content of the capacity-1 reply channels; sends and runs count, per
      request, the replies sent and the times its fn was started; returned is what fn returned. */
  datatype Ledger = Ledger(reply: map<Id, Result>, sends: multiset<Id>, runs: multiset<Id>, returned: map<Id, int>)

  datatype State = State(
    world: World,
    sem: nat,
    queueSem: nat,
    callers: map<Id, Caller>,
    runners: map<Id, Runner>,
    worker: Worker,
    ledger: Ledger)

  datatype Case = Acquire | OnContext | OnClosed | OnReply | Default

  datatype Action =
    | Call(id: Id)
    | Cancel(id: Id)              // the caller's context ends
    | QueueTimeout(id: Id)        // only its queue deadline passes
    | Close
    | CallerStep(id: Id, select: Case)
    | FnReturns(id: Id, value: int)
    | Handoff(id: Id)
    | WorkerStep(select: Case)
    | RunnerStep(id: Id)

  function Init(l: Limits): State {
    State(World(false, {}, {}), 0, 0, map[], map[], if l.maxQueue > 0 then Idle else Absent,
          Ledger(map[], multiset{}, multiset{}, map[]))
  }

  function Started(g: Ledger, c: Id): Ledger {
    g.(runs := g.runs + multiset{c})
  }

  function Replied(g: Ledger, c: Id, r: Result): Ledger {
    g.(reply := g.reply[c := r], sends := g.sends + multiset{c})
  }

  function FnReturned(g: Ledger, c: Id, v: int): Ledger {
    g.(returned := g.returned[c := v])
  }

  function At(s: State, c: Id, pc: Caller): State {
    s.(callers := s.callers[c := pc])
  }

  /** queueCtx is done when the context or the queue deadline is. */
  predicate QueueOver(s: State, c: Id) {
    c in s.world.cancelled || c in s.world.timedOut
  }

  function Apply(l: Limits, s: State, a: Action): State {
    match a
    case Call(c) => if c in s.callers then s else At(s, c, Starting)
    case Cancel(c) => s.(world := s.world.(cancelled := s.world.cancelled + {c}))
    case QueueTimeout(c) => s.(world := s.world.(timedOut := s.world.timedOut + {c}))
    case Close => s.(world := s.world.(closed := true))
    case CallerStep(c, select) => if c in s.callers then StepCaller(l, s, c, select) else s
    case FnReturns(c, v) =>
      if c in s.callers && s.callers[c].Running? then At(s, c, Releasing(v)).(ledger := FnReturned(s.ledger, c, v))
      else if c in s.runners && s.runners[c].Executing? then
        s.(runners := s.runners[c := Replying(v)], ledger := FnReturned(s.ledger, c, v))
      else s
    case Handoff(c) =>
      if c in s.callers && s.callers[c].Sending? then
        match s.worker
        case Idle => At(s, c, Waiting).(worker := Holding(c))
        case Draining => At(s, c, Waiting).(worker := Refusing(c, Full, true))
        case _ => s
      else s
    case WorkerStep(select) => StepWorker(l, s, select)
    case RunnerStep(c) => if c in s.runners then StepRunner(s, c) else s
  }

  function StepCaller(l: Limits, s: State, c: Id, select: Case): State
    requires c in s.callers
  {
    match s.callers[c]
    case Starting => At(s, c, if s.world.closed then Done(Full) else Trying)
    case Trying => StepTrying(l, s, c, select)
    case Releasing(v) => if s.sem > 0 then At(s, c, Done(Returned(v))).(sem := s.sem - 1) else s
    case Enqueueing => StepEnqueueing(l, s, c, select)
    case Sending => StepInQueue(s, c, select)
    case Waiting =>
      if select.OnReply? && c in s.ledger.reply
      then At(s, c, Leaving(s.ledger.reply[c])).(ledger := s.ledger.(reply := s.ledger.reply - {c}))
      else StepInQueue(s, c, select)
    case Leaving(result) => if s.queueSem > 0 then At(s, c, Done(result)).(queueSem := s.queueSem - 1) else s
    case Running => s
    case Done(_) => s
  }

  function StepTrying(l: Limits, s: State, c: Id, select: Case): State {
    match select
    case Acquire =>
      if s.sem < l.maxConcurrent then At(s, c, Running).(sem := s.sem + 1, ledger := Started(s.ledger, c)) else s
    case OnContext => if c in s.world.cancelled then At(s, c, Done(ContextError)) else s
    case OnClosed => if s.world.closed then At(s, c, Done(Full)) else s
    case Default =>
      if s.sem >= l.maxConcurrent && c !in s.world.cancelled && !s.world.closed then At(s, c, Enqueueing) else s
    case OnReply => s
  }

  function StepEnqueueing(l: Limits, s: State, c: Id, select: Case): State {
    if l.maxQueue == 0 then At(s, c, Done(Full)) else
      match select
      case Acquire => if s.queueSem < l.maxQueue then At(s, c, Sending).(queueSem := s.queueSem + 1) else s
      case OnContext => if QueueOver(s, c) then At(s, c, Done(ContextError)) else s
      case OnClosed => if s.world.closed then At(s, c, Done(Full)) else s
      case Default =>
        if s.queueSem >= l.maxQueue && !QueueOver(s, c) && !s.world.closed then At(s, c, Done(Full)) else s
      case OnReply => s
  }

  /** The exits shared by the two inner selects of enqueue. */
  function StepInQueue(s: State, c: Id, select: Case): State {
    match select
    case OnContext => if QueueOver(s, c) then At(s, c, Leaving(ContextError)) else s
    case OnClosed => if s.world.closed then At(s, c, Leaving(Full)) else s
    case _ => s
  }

  predicate SenderReady(s: State) {
    exists c :: c in s.callers && s.callers[c].Sending?
  }

  function StepWorker(l: Limits, s: State, select: Case): State {
    match s.worker
    case Idle => if select.OnClosed? && s.world.closed then s.(worker := Draining) else s
    case Holding(c) => StepHolding(l, s, c, select)
    case Refusing(c, result, drain) =>
      if c in s.ledger.reply then s else
        s.(ledger := Replied(s.ledger, c, result), worker := if drain then Draining else Idle)
    case Draining => if select.Default? && !SenderReady(s) then s.(worker := Stopped) else s
    case Absent => s
    case Stopped => s
  }

  function StepHolding(l: Limits, s: State, c: Id, select: Case): State {
    match select
    case Acquire =>
      if s.sem < l.maxConcurrent then
        s.(sem := s.sem + 1, runners := s.runners[c := Executing], ledger := Started(s.ledger, c), worker := Idle)
      else s
    case OnContext => if c in s.world.cancelled then s.(worker := Refusing(c, ContextError, false)) else s
    case OnClosed => if s.world.closed then s.(worker := Refusing(c, Full, true)) else s
    case _ => s
  }

  function StepRunner(s: State, c: Id): State
    requires c in s.runners
  {
    match s.runners[c]
    case Executing => s
    case Replying(v) =>
      if c in s.ledger.reply then s else
        s.(ledger := Replied(s.ledger, c, Returned(v)), runners := s.runners[c := Unslotting])
    case Unslotting => if s.sem > 0 then s.(sem := s.sem - 1, runners := s.runners - {c}) else s
  }

  function Run(l: Limits, s: State, actions: seq<Action>): State {
    if actions == [] then s else Apply(l, Run(l, s, actions[..|actions| - 1]), actions[|actions| - 1])
  }

  // ----- Slots -----

  predicate HoldsSem(pc: Caller) {
    pc.Running? || pc.Releasing?
  }

  predicate HoldsQueue(pc: Caller) {
    pc.Sending? || pc.Waiting? || pc.Leaving?
  }

  predicate RunningFn(pc: Caller) {
    pc.Running?
  }

  predicate ExecutingFn(r: Runner) {
    r.Executing?
  }

  /** Every semaphore element in use belongs to a caller or a spawned goroutine, every queue
      slot to a caller. */
  ghost predicate SlotInv(l: Limits, s: State) {
    && s.sem == Tally(s.callers, HoldsSem) + |s.runners|
    && s.sem <= l.maxConcurrent
    && s.queueSem == Tally(s.callers, HoldsQueue)
    && s.queueSem <= l.maxQueue
  }

  function One(b: bool): int {
    if b then 1 else 0
  }

  /** A caller moves and the semaphores change by exactly what its move takes or gives back. */
  lemma CallerMoves(l: Limits, s: State, c: Id, pc: Caller, t: State)
    requires SlotInv(l, s) && c in s.callers
    requires t.callers == s.callers[c := pc] && t.runners == s.runners
    requires t.sem == s.sem + One(HoldsSem(pc)) - One(HoldsSem(s.callers[c]))
    requires t.queueSem == s.queueSem + One(HoldsQueue(pc)) - One(HoldsQueue(s.callers[c]))
    requires t.sem <= l.maxConcurrent && t.queueSem <= l.maxQueue
    ensures SlotInv(l, t)
  {
    TallyUpdate(s.callers, c, pc, HoldsSem);
    TallyUpdate(s.callers, c, pc, HoldsQueue);
  }

  lemma TryingKeepsSlots(l: Limits, s: State, c: Id, select: Case)
    requires SlotInv(l, s) && c in s.callers && s.callers[c].Trying?
    ensures SlotInv(l, StepTrying(l, s, c, select))
  {
    var t := StepTrying(l, s, c, select);
    if t != s {
      CallerMoves(l, s, c, t.callers[c], t);
    }
  }

  lemma EnqueueingKeepsSlots(l: Limits, s: State, c: Id, select: Case)
    requires SlotInv(l, s) && c in s.callers && s.callers[c].Enqueueing?
    ensures SlotInv(l, StepEnqueueing(l, s, c, select))
  {
    var t := StepEnqueueing(l, s, c, select);
    if t != s {
      CallerMoves(l, s, c, t.callers[c], t);
    }
  }

  lemma InQueueKeepsSlots(l: Limits, s: State, c: Id, select: Case)
    requires SlotInv(l, s) && c in s.callers && (s.callers[c].Sending? || s.callers[c].Waiting?)
    ensures SlotInv(l, StepCaller(l, s, c, select))
  {
    var t := StepCaller(l, s, c, select);
    if t != s {
      CallerMoves(l, s, c, t.callers[c], t);
    }
  }

  lemma CallerKeepsSlots(l: Limits, s: State, c: Id, select: Case)
    requires SlotInv(l, s) && c in s.callers
    ensures SlotInv(l, StepCaller(l, s, c, select))
  {
    var t := StepCaller(l, s, c, select);
    match s.callers[c]
    case Trying => TryingKeepsSlots(l, s, c, select);
    case Enqueueing => EnqueueingKeepsSlots(l, s, c, select);
    case Sending => InQueueKeepsSlots(l, s, c, select);
    case Waiting => InQueueKeepsSlots(l, s, c, select);
    case Starting => CallerMoves(l, s, c, t.callers[c], t);
    case Releasing(_) =>
      if t != s {
        CallerMoves(l, s, c, t.callers[c], t);
      }
    case Leaving(_) =>
      if t != s {
        CallerMoves(l, s, c, t.callers[c], t);
      }
    case Running =>
    case Done(_) =>
  }

  lemma WorkerKeepsSlots(l: Limits, s: State, select: Case)
    requires SlotInv(l, s) && (s.worker.Holding? ==> s.worker.id !in s.runners)
    ensures SlotInv(l, StepWorker(l, s, select))
  {
  }

  lemma RunnerKeepsSlots(l: Limits, s: State, c: Id)
    requires SlotInv(l, s) && c in s.runners
    ensures SlotInv(l, StepRunner(s, c))
  {
    assert (s.runners - {c}).Keys == s.runners.Keys - {c};
  }

  lemma ReturnKeepsSlots(l: Limits, s: State, c: Id, v: int)
    requires SlotInv(l, s)
    ensures SlotInv(l, Apply(l, s, FnReturns(c, v)))
  {
    if c in s.callers && s.callers[c].Running? {
      CallerMoves(l, s, c, Releasing(v), Apply(l, s, FnReturns(c, v)));
    }
  }

  lemma HandoffKeepsSlots(l: Limits, s: State, c: Id)
    requires SlotInv(l, s)
    ensures SlotInv(l, Apply(l, s, Handoff(c)))
  {
    if c in s.callers && s.callers[c].Sending? && (s.worker.Idle? || s.worker.Draining?) {
      CallerMoves(l, s, c, Waiting, Apply(l, s, Handoff(c)));
    }
  }

  lemma ApplyKeepsSlots(l: Limits, s: State, a: Action)
    requires SlotInv(l, s) && (s.worker.Holding? ==> s.worker.id !in s.runners)
    ensures SlotInv(l, Apply(l, s, a))
  {
    match a
    case Call(c) =>
      TallyUpdate(s.callers, c, Starting, HoldsSem);
      TallyUpdate(s.callers, c, Starting, HoldsQueue);
    case CallerStep(c, select) =>
      if c in s.callers {
        CallerKeepsSlots(l, s, c, select);
      }
    case FnReturns(c, v) => ReturnKeepsSlots(l, s, c, v);
    case Handoff(c) => HandoffKeepsSlots(l, s, c);
    case WorkerStep(select) => WorkerKeepsSlots(l, s, select);
    case RunnerStep(c) =>
      if c in s.runners {
        RunnerKeepsSlots(l, s, c);
      }
    case Cancel(_) =>
    case QueueTimeout(_) =>
    case Close =>
  }

  // ----- Requests -----

  /** All that the state says about one request. */
  datatype Request = Request(
    caller: Option<Caller>,
    runner: Option<Runner>,
    held: bool,
    refusal: Option<Result>,
    reply: Option<Result>,
    sends: nat,
    runs: nat,
    returned: Option<int>)

  function Find<T>(m: map<Id, T>, c: Id): Option<T> {
    if c in m then Some(m[c]) else None
  }

  function Of(s: State, c: Id): Request {
    Request(
      Find(s.callers, c),
      Find(s.runners, c),
      s.worker.Holding? && s.worker.id == c,
      if s.worker.Refusing? && s.worker.id == c then Some(s.worker.result) else None,
      Find(s.ledger.reply, c),
      s.ledger.sends[c],
      s.ledger.runs[c],
      Find(s.ledger.returned, c))
  }

  /** The caller has not handed its request to the worker. */
  predicate NotHandedOver(caller: Option<Caller>) {
    match caller
    case None => true
    case Some(pc) => pc.Starting? || pc.Trying? || pc.Enqueueing? || pc.Sending? || pc.Running? || pc.Releasing?
  }

  predicate OwnResult(q: Request, r: Result) {
    r.Returned? ==> q.returned == Some(r.value) && q.runs == 1
  }

  /** A request is in one place: with its caller, with the worker, with its goroutine, or
      answered; its fn is started on the way at most once, and only its own value comes back. */
  predicate Good(q: Request) {
    && q.runs <= 1 && q.sends <= 1
    && (q.held || q.refusal.Some? ==> q.runner.None? && q.sends == 0 && q.runs == 0)
    && !(q.held && q.refusal.Some?)
    && (q.refusal.Some? ==> !q.refusal.value.Returned?)
    && (q.runner.Some? ==> q.runs == 1 && (!q.runner.value.Unslotting? ==> q.sends == 0))
    && (q.reply.Some? ==> q.sends == 1)
    && (NotHandedOver(q.caller) ==>
          && !q.held && q.refusal.None? && q.runner.None? && q.sends == 0
          && q.runs == One(q.caller.Some? && HoldsSem(q.caller.value)))
    && (q.returned.Some? ==>
          && q.runs == 1
          && !(q.caller.Some? && q.caller.value.Running?)
          && !(q.runner.Some? && q.runner.value.Executing?))
    && (q.runner.Some? && q.runner.value.Replying? ==> OwnResult(q, Returned(q.runner.value.value)))
    && (q.reply.Some? ==> OwnResult(q, q.reply.value))
    && (q.caller.Some? && q.caller.value.Releasing? ==> OwnResult(q, Returned(q.caller.value.value)))
    && (q.caller.Some? && q.caller.value.Leaving? ==> OwnResult(q, q.caller.value.result))
    && (q.caller.Some? && q.caller.value.Done? ==> OwnResult(q, q.caller.value.result))
  }

  ghost predicate RequestInv(s: State) {
    forall c: Id :: Good(Of(s, c))
  }

  ghost predicate Inv(l: Limits, s: State) {
    SlotInv(l, s) && RequestInv(s)
  }

  /** The request an action is about, if any. */
  function Subject(s: State, a: Action): Id {
    match a
    case WorkerStep(_) => if s.worker.Holding? || s.worker.Refusing? then s.worker.id else 0
    case Close => 0
    case _ => a.id
  }

  lemma TryingLeavesOthers(l: Limits, s: State, c: Id, select: Case, d: Id)
    requires c in s.callers && d != c
    ensures Of(StepTrying(l, s, c, select), d) == Of(s, d)
  {
  }

  lemma EnqueueingLeavesOthers(l: Limits, s: State, c: Id, select: Case, d: Id)
    requires c in s.callers && d != c
    ensures Of(StepEnqueueing(l, s, c, select), d) == Of(s, d)
    ensures Of(StepInQueue(s, c, select), d) == Of(s, d)
  {
  }

  lemma ReplyLeavesOthers(s: State, c: Id, d: Id)
    requires c in s.ledger.reply && d != c
    ensures Of(At(s, c, Leaving(s.ledger.reply[c])).(ledger := s.ledger.(reply := s.ledger.reply - {c})), d) == Of(s, d)
  {
  }

  /** A caller's step writes its own entry, and takes at most its own reply. */
  lemma CallerLeavesOthers(l: Limits, s: State, c: Id, select: Case, d: Id)
    requires c in s.callers && d != c
    ensures Of(StepCaller(l, s, c, select), d) == Of(s, d)
  {
    match s.callers[c]
    case Trying => TryingLeavesOthers(l, s, c, select, d);
    case Enqueueing => EnqueueingLeavesOthers(l, s, c, select, d);
    case Sending => EnqueueingLeavesOthers(l, s, c, select, d);
    case Waiting =>
      EnqueueingLeavesOthers(l, s, c, select, d);
      if c in s.ledger.reply {
        ReplyLeavesOthers(s, c, d);
      }
    case _ =>
  }

  lemma WorkerLeavesOthers(l: Limits, s: State, select: Case, d: Id)
    requires s.worker.Holding? || s.worker.Refusing? ==> d != s.worker.id
    ensures Of(StepWorker(l, s, select), d) == Of(s, d)
  {
    if s.worker.Holding? {
      assert Of(StepHolding(l, s, s.worker.id, select), d) == Of(s, d);
    }
  }

  lemma OthersUntouched(l: Limits, s: State, a: Action, d: Id)
    requires d != Subject(s, a)
    ensures Of(Apply(l, s, a), d) == Of(s, d)
  {
    match a
    case CallerStep(c, select) =>
      if c in s.callers {
        CallerLeavesOthers(l, s, c, select, d);
      }
    case WorkerStep(select) => WorkerLeavesOthers(l, s, select, d);
    case _ =>
  }

  lemma CallerStaysGood(l: Limits, s: State, c: Id, select: Case)
    requires c in s.callers && Good(Of(s, c))
    ensures Good(Of(StepCaller(l, s, c, select), c))
  {
    match s.callers[c]
    case Trying => TryingStaysGood(l, s, c, select);
    case Enqueueing => EnqueueingStaysGood(l, s, c, select);
    case Sending => InQueueStaysGood(s, c, select);
    case Waiting =>
      if select.OnReply? && c in s.ledger.reply {
        ReplyArrives(l, s, c);
      } else {
        InQueueStaysGood(s, c, select);
      }
    case Starting =>
    case Releasing(_) =>
    case Leaving(_) =>
    case Running =>
    case Done(_) =>
  }

  lemma TryingStaysGood(l: Limits, s: State, c: Id, select: Case)
    requires c in s.callers && s.callers[c].Trying? && Good(Of(s, c))
    ensures Good(Of(StepTrying(l, s, c, select), c))
  {
  }

  lemma EnqueueingStaysGood(l: Limits, s: State, c: Id, select: Case)
    requires c in s.callers && s.callers[c].Enqueueing? && Good(Of(s, c))
    ensures Good(Of(StepEnqueueing(l, s, c, select), c))
  {
  }

  lemma InQueueStaysGood(s: State, c: Id, select: Case)
    requires c in s.callers && (s.callers[c].Sending? || s.callers[c].Waiting?) && Good(Of(s, c))
    ensures Good(Of(StepInQueue(s, c, select), c))
  {
  }

  lemma ReplyArrives(l: Limits, s: State, c: Id)
    requires c in s.callers && s.callers[c].Waiting? && c in s.ledger.reply && Good(Of(s, c))
    ensures Good(Of(StepCaller(l, s, c, OnReply), c))
  {
  }

  lemma SubjectStaysGood(l: Limits, s: State, a: Action)
    requires Good(Of(s, Subject(s, a)))
    ensures Good(Of(Apply(l, s, a), Subject(s, a)))
  {
    match a
    case CallerStep(c, select) =>
      if c in s.callers {
        CallerStaysGood(l, s, c, select);
      }
    case WorkerStep(select) => WorkerStaysGood(l, s, select, Subject(s, a));
    case _ =>
  }

  lemma WorkerStaysGood(l: Limits, s: State, select: Case, c: Id)
    requires Good(Of(s, c)) && c == Subject(s, WorkerStep(select))
    ensures Good(Of(StepWorker(l, s, select), c))
  {
    if s.worker.Holding? {
      assert StepWorker(l, s, select) == StepHolding(l, s, c, select);
    }
  }

  lemma ApplyKeepsInv(l: Limits, s: State, a: Action)
    requires Inv(l, s)
    ensures Inv(l, Apply(l, s, a))
  {
    if s.worker.Holding? {
      assert Good(Of(s, s.worker.id));
    }
    ApplyKeepsSlots(l, s, a);
    forall c: Id
      ensures Good(Of(Apply(l, s, a), c))
    {
      assert Good(Of(s, c));
      if c == Subject(s, a) {
        SubjectStaysGood(l, s, a);
      } else {
        OthersUntouched(l, s, a, c);
      }
    }
  }

  lemma {:induction false} RunKeepsInv(l: Limits, actions: seq<Action>)
    ensures Inv(l, Run(l, Init(l), actions))
  {
    var s := Run(l, Init(l), actions);
    if actions == [] {
      TallyZero(s.callers, HoldsSem);
      TallyZero(s.callers, HoldsQueue);
    } else {
      RunKeepsInv(l, actions[..|actions| - 1]);
      ApplyKeepsInv(l, Run(l, Init(l), actions[..|actions| - 1]), actions[|actions| - 1]);
    }
  }

  // ----- What every interleaving guarantees -----

  lemma TallyMonotone<K, T>(m: map<K, T>, p: T -> bool, q: T -> bool)
    requires forall x :: p(x) ==> q(x)
    ensures Tally(m, p) <= Tally(m, q)
  {
    assert Where(m, q) == Where(m, p) + (Where(m, q) - Where(m, p));
  }

  /** Running functions never exceed MaxConcurrent and queue slots never exceed MaxQueue. */
  lemma ConcurrencyIsBounded(l: Limits, actions: seq<Action>)
    ensures var s := Run(l, Init(l), actions);
            && Tally(s.callers, RunningFn) + Tally(s.runners, ExecutingFn) <= l.maxConcurrent
            && Tally(s.callers, HoldsQueue) <= l.maxQueue
  {
    var s := Run(l, Init(l), actions);
    RunKeepsInv(l, actions);
    TallyMonotone(s.callers, RunningFn, HoldsSem);
    assert Where(s.runners, ExecutingFn) <= s.runners.Keys;
    assert s.runners.Keys == Where(s.runners, ExecutingFn) + (s.runners.Keys - Where(s.runners, ExecutingFn));
  }

  /** Each request's fn runs at most once, its reply channel gets at most one send, so no send
      ever blocks, and a value delivered to a caller is its own fn's result. */
  lemma RequestsAreServedOnce(l: Limits, actions: seq<Action>, c: Id)
    ensures var s := Run(l, Init(l), actions);
            && s.ledger.runs[c] <= 1
            && s.ledger.sends[c] <= 1
            && (s.worker.Refusing? && s.worker.id == c ==> c !in s.ledger.reply)
            && (c in s.runners && s.runners[c].Replying? ==> c !in s.ledger.reply)
            && (c in s.callers && s.callers[c].Done? && s.callers[c].result.Returned? ==>
                  c in s.ledger.returned && s.callers[c].result.value == s.ledger.returned[c] && s.ledger.runs[c] == 1)
  {
    RunKeepsInv(l, actions);
    var s := Run(l, Init(l), actions);
    assert Good(Of(s, c));
  }

  /** Nothing leaks: once every call is done and every goroutine has ended, every slot is free. */
  lemma QuiescenceFreesEverySlot(l: Limits, actions: seq<Action>)
    requires var s := Run(l, Init(l), actions);
             s.runners == map[] && forall c :: c in s.callers ==> s.callers[c].Done?
    ensures var s := Run(l, Init(l), actions);
            s.sem == 0 && s.queueSem == 0
  {
    RunKeepsInv(l, actions);
    var s := Run(l, Init(l), actions);
    TallyZero(s.callers, HoldsSem);
    TallyZero(s.callers, HoldsQueue);
  }

  lemma ClosedCallerLeaves(l: Limits, s: State, c: Id)
    requires s.world.closed && c in s.callers
    requires s.callers[c].Enqueueing? || s.callers[c].Sending? || s.callers[c].Waiting?
    ensures var t := Apply(l, s, CallerStep(c, OnClosed));
            && t == At(s, c, if s.callers[c].Enqueueing? then Done(Full) else Leaving(Full))
  {
  }

  lemma LeavingCallerIsDone(l: Limits, s: State, c: Id)
    requires c in s.callers && (s.callers[c].Done? || (s.callers[c].Leaving? && s.queueSem > 0))
    ensures var t := Apply(l, s, CallerStep(c, OnClosed));
            && c in t.callers && t.callers[c] == Done(s.callers[c].result)
            && t.ledger == s.ledger
  {
  }

  /** After Close a caller anywhere in enqueue can leave by its own steps alone, without waiting
      for the worker, another caller or its context. */
  lemma CloseReleasesWaiters(l: Limits, actions: seq<Action>, c: Id)
    requires var s := Run(l, Init(l), actions);
             s.world.closed && c in s.callers && (s.callers[c].Enqueueing? || HoldsQueue(s.callers[c]))
    ensures var s := Run(l, Init(l), actions);
            var t := Apply(l, Apply(l, s, CallerStep(c, OnClosed)), CallerStep(c, OnClosed));
            && c in t.callers && t.callers[c].Done?
            && (!s.callers[c].Leaving? ==> t.callers[c].result == Full)
            && t.ledger.runs == s.ledger.runs
  {
    RunKeepsInv(l, actions);
    var s := Run(l, Init(l), actions);
    if HoldsQueue(s.callers[c]) {
      assert c in Where(s.callers, HoldsQueue);
    }
    var left := Apply(l, s, CallerStep(c, OnClosed));
    if s.callers[c].Leaving? {
      LeavingCallerIsDone(l, s, c);
    } else {
      ClosedCallerLeaves(l, s, c);
    }
    LeavingCallerIsDone(l, left, c);
  }

  /** QueueTimeout releases the caller, not the request: the worker watches only the caller's
      context, so a request already handed over runs although its caller has timed out. */
  lemma TimedOutRequestStillRuns(l: Limits, s: State, c: Id)
    requires c in s.callers && s.callers[c].Waiting? && s.worker == Holding(c)
    requires c in s.world.timedOut && s.queueSem > 0 && s.sem < l.maxConcurrent
    ensures var gone := Apply(l, Apply(l, s, CallerStep(c, OnContext)), CallerStep(c, OnContext));
            var t := Apply(l, gone, WorkerStep(Acquire));
            && t.callers[c] == Done(ContextError)
            && c in t.runners && t.runners[c].Executing?
            && t.ledger.runs[c] == s.ledger.runs[c] + 1
  {
    var left := Apply(l, s, CallerStep(c, OnContext));
    assert left == At(s, c, Leaving(ContextError));
    var gone := Apply(l, left, CallerStep(c, OnContext));
    assert gone.callers[c] == Done(ContextError) && gone.worker == Holding(c);
  }

  // ----- When a caller that has left is still run -----

  /** The caller has come back, or is about to, whatever became of its request. */
  predicate HasLeft(s: State, c: Id) {
    c in s.callers && (s.callers[c].Leaving? || s.callers[c].Done?)
  }

  /** Some continuation starts the caller's fn. */
  ghost predicate CanStart(l: Limits, s: State, c: Id) {
    exists actions :: Run(l, s, actions).ledger.runs[c] > s.ledger.runs[c]
  }

  lemma CallerLeavesRequestAlone(l: Limits, s: State, d: Id, select: Case, c: Id)
    requires d in s.callers && HasLeft(s, c) && s.worker != Holding(c)
    ensures var t := StepCaller(l, s, d, select);
            HasLeft(t, c) && t.worker == s.worker && t.ledger.runs[c] == s.ledger.runs[c]
  {
    if d != c {
      CallerLeavesOthers(l, s, d, select, c);
      assert Of(StepCaller(l, s, d, select), c) == Of(s, c);
    }
    match s.callers[d]
    case Trying => assert StepTrying(l, s, d, select).worker == s.worker;
    case Enqueueing => assert StepEnqueueing(l, s, d, select).worker == s.worker;
    case _ =>
  }

  lemma WorkerLeavesRequestAlone(l: Limits, s: State, select: Case, c: Id)
    requires HasLeft(s, c) && s.worker != Holding(c)
    ensures var t := StepWorker(l, s, select);
            HasLeft(t, c) && t.worker != Holding(c) && t.ledger.runs[c] == s.ledger.runs[c]
  {
    if s.worker.Holding? {
      assert StepWorker(l, s, select) == StepHolding(l, s, s.worker.id, select);
    }
  }

  lemma StepLeavesRequestAlone(l: Limits, s: State, a: Action, c: Id)
    requires HasLeft(s, c) && s.worker != Holding(c)
    ensures var t := Apply(l, s, a);
            HasLeft(t, c) && t.worker != Holding(c) && t.ledger.runs[c] == s.ledger.runs[c]
  {
    match a
    case CallerStep(d, select) =>
      if d in s.callers {
        CallerLeavesRequestAlone(l, s, d, select, c);
      }
    case WorkerStep(select) => WorkerLeavesRequestAlone(l, s, select, c);
    case RunnerStep(d) =>
      if d in s.runners {
        assert StepRunner(s, d).callers == s.callers && StepRunner(s, d).worker == s.worker;
      }
    case _ =>
  }

  lemma {:induction false} NeverStartedAgain(l: Limits, s: State, actions: seq<Action>, c: Id)
    requires HasLeft(s, c) && s.worker != Holding(c)
    ensures var t := Run(l, s, actions);
            HasLeft(t, c) && t.worker != Holding(c) && t.ledger.runs[c] == s.ledger.runs[c]
  {
    if actions != [] {
      NeverStartedAgain(l, s, actions[..|actions| - 1], c);
      StepLeavesRequestAlone(l, Run(l, s, actions[..|actions| - 1]), actions[|actions| - 1], c);
    }
  }

  /** Only the semaphore stands between a held request and its start. */
  predicate StillHeld(s: State, t: State) {
    t.worker == s.worker && t.ledger.runs == s.ledger.runs
  }

  lemma RunSnoc(l: Limits, s: State, actions: seq<Action>, a: Action)
    ensures Run(l, s, actions + [a]) == Apply(l, Run(l, s, actions), a)
  {
    assert (actions + [a])[..|actions|] == actions;
  }

  lemma RunTwo(l: Limits, s: State, a: Action, b: Action)
    ensures Run(l, s, [a, b]) == Apply(l, Apply(l, s, a), b)
  {
    RunSnoc(l, s, [], a);
    RunSnoc(l, s, [a], b);
    assert [] + [a] == [a] && [a] + [b] == [a, b];
  }

  /** A caller running its own fn can finish and give its slot back. */
  lemma CallerFreesItsSlot(l: Limits, s: State, d: Id) returns (actions: seq<Action>)
    requires d in s.callers && HoldsSem(s.callers[d]) && s.sem > 0
    ensures StillHeld(s, Run(l, s, actions)) && Run(l, s, actions).sem == s.sem - 1
  {
    RunTwo(l, s, FnReturns(d, 0), CallerStep(d, Default));
    actions := [FnReturns(d, 0), CallerStep(d, Default)];
    if s.callers[d].Releasing? && !(d in s.runners && s.runners[d].Executing?) {
      assert Apply(l, s, FnReturns(d, 0)) == s;
    } else if s.callers[d].Releasing? {
      assert Apply(l, s, FnReturns(d, 0)).callers == s.callers;
    }
  }

  lemma UnslottingFreesASlot(l: Limits, s: State, d: Id)
    requires d in s.runners && s.runners[d].Unslotting? && s.sem > 0
    ensures var t := Apply(l, s, RunnerStep(d));
            t.worker == s.worker && t.ledger.runs == s.ledger.runs && t.sem == s.sem - 1
  {
  }

  lemma ReplyingSends(l: Limits, s: State, d: Id)
    requires d in s.runners && s.runners[d].Replying? && d !in s.ledger.reply
    ensures var t := Apply(l, s, RunnerStep(d));
            && t.worker == s.worker && t.ledger.runs == s.ledger.runs && t.sem == s.sem
            && d in t.runners && t.runners[d].Unslotting?
  {
  }

  /** A spawned goroutine can finish, reply and give its slot back. */
  lemma RunnerFreesItsSlot(l: Limits, s: State, d: Id) returns (actions: seq<Action>)
    requires d in s.runners && s.sem > 0 && Good(Of(s, d))
    ensures StillHeld(s, Run(l, s, actions)) && Run(l, s, actions).sem == s.sem - 1
  {
    var t, step := s, RunnerStep(d);
    actions := [];
    if t.runners[d].Executing? {
      RunSnoc(l, s, actions, FnReturns(d, 0));
      t, actions := Apply(l, s, FnReturns(d, 0)), actions + [FnReturns(d, 0)];
      assert !(d in s.callers && s.callers[d].Running?);
    }
    if t.runners[d].Replying? {
      assert d !in t.ledger.reply;
      ReplyingSends(l, t, d);
      RunSnoc(l, s, actions, step);
      t, actions := Apply(l, t, step), actions + [step];
    }
    UnslottingFreesASlot(l, t, d);
    RunSnoc(l, s, actions, step);
    actions := actions + [step];
  }

  /** In any state the invariant allows, a full semaphore has a holder that can let go. */
  lemma SomeSlotFrees(l: Limits, s: State) returns (actions: seq<Action>)
    requires Inv(l, s) && s.sem > 0
    ensures StillHeld(s, Run(l, s, actions)) && Run(l, s, actions).sem == s.sem - 1
  {
    if d :| d in s.callers && HoldsSem(s.callers[d]) {
      actions := CallerFreesItsSlot(l, s, d);
    } else {
      TallyZero(s.callers, HoldsSem);
      assert |s.runners| > 0;
      var d :| d in s.runners;
      assert Good(Of(s, d));
      actions := RunnerFreesItsSlot(l, s, d);
    }
  }

  lemma AcquireStarts(l: Limits, s: State, c: Id)
    requires s.worker == Holding(c) && s.sem < l.maxConcurrent
    ensures Apply(l, s, WorkerStep(Acquire)).ledger.runs[c] == s.ledger.runs[c] + 1
  {
  }

  lemma HeldCanStart(l: Limits, s: State, c: Id)
    requires Inv(l, s) && l.maxConcurrent >= 1 && s.worker == Holding(c)
    ensures CanStart(l, s, c)
  {
    var actions := [];
    if s.sem >= l.maxConcurrent {
      actions := SomeSlotFrees(l, s);
    } else {
      assert Run(l, s, []) == s;
    }
    var t := Run(l, s, actions);
    assert t.worker == s.worker && t.ledger.runs == s.ledger.runs && t.sem < l.maxConcurrent;
    AcquireStarts(l, t, c);
    RunSnoc(l, s, actions, WorkerStep(Acquire));
    var more := actions + [WorkerStep(Acquire)];
    assert Run(l, s, more).ledger.runs[c] > s.ledger.runs[c];
  }

  /** After a caller has left, its fn can still be started exactly when the worker holds its
      request: not before it was handed over, and not once it was refused or started. */
  lemma StartsAfterLeavingExactly(l: Limits, actions: seq<Action>, c: Id)
    requires l.maxConcurrent >= 1 && HasLeft(Run(l, Init(l), actions), c)
    ensures var s := Run(l, Init(l), actions);
            CanStart(l, s, c) <==> s.worker == Holding(c)
  {
    RunKeepsInv(l, actions);
    var s := Run(l, Init(l), actions);
    if s.worker == Holding(c) {
      HeldCanStart(l, s, c);
    } else {
      forall more
        ensures Run(l, s, more).ledger.runs[c] == s.ledger.runs[c]
      {
        NeverStartedAgain(l, s, more, c);
      }
    }
  }

  ghost predicate Reachable(l: Limits, s: State) {
    exists actions :: Run(l, Init(l), actions) == s
  }

  lemma ReachStep(l: Limits, s: State, a: Action)
    requires Reachable(l, s)
    ensures Reachable(l, Apply(l, s, a))
  {
    var actions :| Run(l, Init(l), actions) == s;
    var more := actions + [a];
    assert more[..|more| - 1] == actions;
    assert Run(l, Init(l), more) == Apply(l, s, a);
  }

  lemma CallerReach(l: Limits, s: State, c: Id, select: Case) returns (t: State)
    requires Reachable(l, s) && c in s.callers
    ensures t == StepCaller(l, s, c, select) && Reachable(l, t)
  {
    t := Apply(l, s, CallerStep(c, select));
    ReachStep(l, s, CallerStep(c, select));
  }

  const TIGHT := Limits(1, 1)

  // Call 0 holds the only semaphore slot.
  const SLOT_TAKEN :=
    State(World(false, {}, {}), 1, 0, map[0 := Running], map[], Idle, Ledger(map[], multiset{}, multiset{0}, map[]))

  // Call 1 has the only queue slot and is about to hand its request over.
  const QUEUED := SLOT_TAKEN.(queueSem := 1, callers := map[0 := Running, 1 := Sending])

  // The worker has call 1's request and call 1's queue deadline has passed.
  const HANDED_OVER :=
    QUEUED.(world := World(false, {}, {1}), callers := map[0 := Running, 1 := Waiting], worker := Holding(1))

  // Call 0 is finished and its slot free again.
  const SLOT_FREE :=
    HANDED_OVER.(sem := 0, callers := map[0 := Done(Returned(7)), 1 := Waiting],
                ledger := Ledger(map[], multiset{}, multiset{0}, map[0 := 7]))

  // Call 1 has come back with its deadline's error; the worker still has its request.
  const GIVEN_UP :=
    SLOT_FREE.(queueSem := 0, callers := map[0 := Done(Returned(7)), 1 := Done(ContextError)])

  lemma SlotTakenIsReachable()
    ensures Reachable(TIGHT, SLOT_TAKEN)
  {
    assert Run(TIGHT, Init(TIGHT), []) == Init(TIGHT);
    ReachStep(TIGHT, Init(TIGHT), Call(0));
    var s := CallerReach(TIGHT, Apply(TIGHT, Init(TIGHT), Call(0)), 0, Default);
    s := CallerReach(TIGHT, s, 0, Acquire);
    assert s.callers == map[0 := Running];
  }

  lemma QueuedIsReachable()
    ensures Reachable(TIGHT, QUEUED)
  {
    SlotTakenIsReachable();
    ReachStep(TIGHT, SLOT_TAKEN, Call(1));
    var s := CallerReach(TIGHT, Apply(TIGHT, SLOT_TAKEN, Call(1)), 1, Default);
    s := CallerReach(TIGHT, s, 1, Default);
    s := CallerReach(TIGHT, s, 1, Acquire);
    assert s.callers == map[0 := Running, 1 := Sending];
  }

  lemma HandedOverIsReachable()
    ensures Reachable(TIGHT, HANDED_OVER)
  {
    QueuedIsReachable();
    ReachStep(TIGHT, QUEUED, Handoff(1));
    var s := Apply(TIGHT, QUEUED, Handoff(1));
    ReachStep(TIGHT, s, QueueTimeout(1));
    assert Apply(TIGHT, s, QueueTimeout(1)).callers == HANDED_OVER.callers;
  }

  lemma SlotFreeIsReachable()
    ensures Reachable(TIGHT, SLOT_FREE)
  {
    HandedOverIsReachable();
    ReachStep(TIGHT, HANDED_OVER, FnReturns(0, 7));
    var s := CallerReach(TIGHT, Apply(TIGHT, HANDED_OVER, FnReturns(0, 7)), 0, Default);
    assert s.callers == SLOT_FREE.callers;
  }

  lemma GivenUpIsReachable()
    ensures Reachable(TIGHT, GIVEN_UP)
  {
    SlotFreeIsReachable();
    var s := CallerReach(TIGHT, SLOT_FREE, 1, OnContext);
    s := CallerReach(TIGHT, s, 1, OnContext);
    assert s.callers == GIVEN_UP.callers;
  }

  /** That situation arises: a caller can come back with its deadline's error and its function be
      started afterwards. */
  lemma ATimedOutCallerIsRun() returns (s: State)
    ensures Reachable(TIGHT, GIVEN_UP) && GIVEN_UP.callers[1] == Done(ContextError) && 1 !in GIVEN_UP.runners
    ensures s == Apply(TIGHT, GIVEN_UP, WorkerStep(Acquire)) && Reachable(TIGHT, s)
    ensures 1 in s.runners && s.runners[1].Executing?
  {
    GivenUpIsReachable();
    ReachStep(TIGHT, GIVEN_UP, WorkerStep(Acquire));
    s := Apply(TIGHT, GIVEN_UP, WorkerStep(Acquire));
  }

  // ----- What a caller is told -----

  /** The worker refuses a request only after Close or once its caller's context has ended. */
  predicate Excused(w: World, c: Id, r: Result) {
    match r
    case Returned(_) => true
    case Full => w.closed
    case ContextError => c in w.cancelled
  }

  /** The request never left its caller, and its fn was never started. */
  predicate Untouched(q: Request) {
    !q.held && q.refusal.None? && q.runner.None? && q.reply.None? && q.sends == 0 && q.runs == 0
  }

  predicate MayEnd(w: World, c: Id, q: Request, r: Result) {
    match r
    case Returned(_) => true
    case Full => w.closed || Untouched(q)
    case ContextError => c in w.cancelled || c in w.timedOut
  }

  /** A request handed over is with the worker, with its goroutine, or answered. */
  predicate UnderWay(q: Request) {
    || q.held || q.refusal.Some? || q.reply.Some?
    || (q.runner.Some? && !q.runner.value.Unslotting?)
  }

  predicate Explained(w: World, c: Id, q: Request) {
    && (q.refusal.Some? ==> Excused(w, c, q.refusal.value))
    && (q.reply.Some? ==> Excused(w, c, q.reply.value) && (q.runs == 1 ==> q.reply.value.Returned?))
    && match q.caller
       case Some(Waiting) => UnderWay(q)
       case Some(Leaving(r)) => MayEnd(w, c, q, r) && (r.Full? ==> w.closed)
       case Some(Done(r)) => MayEnd(w, c, q, r)
       case _ => true
  }

  /** Nothing the world does makes an explanation go away. */
  lemma WorldOnlyGrows(l: Limits, s: State, a: Action, c: Id, q: Request)
    requires Explained(s.world, c, q)
    ensures Explained(Apply(l, s, a).world, c, q)
  {
    assert s.world.closed ==> Apply(l, s, a).world.closed;
    assert s.world.cancelled <= Apply(l, s, a).world.cancelled;
    assert s.world.timedOut <= Apply(l, s, a).world.timedOut;
  }

  lemma CallerStaysExplained(l: Limits, s: State, c: Id, select: Case)
    requires c in s.callers && Good(Of(s, c)) && Explained(s.world, c, Of(s, c))
    ensures Explained(s.world, c, Of(StepCaller(l, s, c, select), c))
  {
    match s.callers[c]
    case Trying => assert Explained(s.world, c, Of(StepTrying(l, s, c, select), c));
    case Enqueueing => assert Explained(s.world, c, Of(StepEnqueueing(l, s, c, select), c));
    case _ =>
  }

  lemma WorkerStaysExplained(l: Limits, s: State, select: Case, c: Id)
    requires Good(Of(s, c)) && Explained(s.world, c, Of(s, c)) && c == Subject(s, WorkerStep(select))
    ensures Explained(s.world, c, Of(StepWorker(l, s, select), c))
  {
    if s.worker.Holding? {
      assert StepWorker(l, s, select) == StepHolding(l, s, c, select);
    }
  }

  /** The worker drains its queue only after Close. */
  predicate DrainsWhenClosed(s: State) {
    s.worker.Draining? || s.worker.Stopped? || (s.worker.Refusing? && s.worker.drain) ==> s.world.closed
  }

  lemma StaysClosed(l: Limits, s: State, a: Action)
    requires DrainsWhenClosed(s)
    ensures DrainsWhenClosed(Apply(l, s, a))
  {
    match a
    case CallerStep(c, select) =>
      if c in s.callers {
        var t := StepCaller(l, s, c, select);
        assert t.worker == s.worker && t.world == s.world;
      }
    case WorkerStep(select) =>
      if s.worker.Holding? {
        assert StepWorker(l, s, select) == StepHolding(l, s, s.worker.id, select);
      }
    case _ =>
  }

  lemma CallerActionStaysExplained(l: Limits, s: State, c: Id, select: Case)
    requires Good(Of(s, c)) && Explained(s.world, c, Of(s, c))
    ensures var t := Apply(l, s, CallerStep(c, select)); Explained(t.world, c, Of(t, c))
  {
    if c in s.callers {
      CallerStaysExplained(l, s, c, select);
      assert StepCaller(l, s, c, select).world == s.world;
    }
  }

  lemma RunnerStaysExplained(l: Limits, s: State, c: Id)
    requires Good(Of(s, c)) && Explained(s.world, c, Of(s, c))
    ensures var t := Apply(l, s, RunnerStep(c)); Explained(t.world, c, Of(t, c))
  {
  }

  lemma HandoffStaysExplained(l: Limits, s: State, c: Id)
    requires Good(Of(s, c)) && Explained(s.world, c, Of(s, c)) && DrainsWhenClosed(s)
    ensures var t := Apply(l, s, Handoff(c)); Explained(t.world, c, Of(t, c))
  {
  }

  lemma ReturnStaysExplained(l: Limits, s: State, c: Id, v: int)
    requires Good(Of(s, c)) && Explained(s.world, c, Of(s, c))
    ensures var t := Apply(l, s, FnReturns(c, v)); Explained(t.world, c, Of(t, c))
  {
  }

  lemma OutsideStaysExplained(l: Limits, s: State, a: Action, c: Id)
    requires a.Call? || a.Cancel? || a.QueueTimeout? || a.Close?
    requires Explained(s.world, c, Of(s, c)) && c == Subject(s, a)
    ensures var t := Apply(l, s, a); Explained(t.world, c, Of(t, c))
  {
  }

  lemma SubjectStaysExplained(l: Limits, s: State, a: Action, c: Id)
    requires c == Subject(s, a) && Good(Of(s, c)) && Explained(s.world, c, Of(s, c)) && DrainsWhenClosed(s)
    ensures Explained(Apply(l, s, a).world, c, Of(Apply(l, s, a), c))
  {
    match a
    case CallerStep(d, select) => CallerActionStaysExplained(l, s, d, select);
    case WorkerStep(select) =>
      WorkerStaysExplained(l, s, select, c);
      assert StepWorker(l, s, select).world == s.world;
    case RunnerStep(d) => RunnerStaysExplained(l, s, d);
    case Handoff(d) => HandoffStaysExplained(l, s, d);
    case FnReturns(d, v) => ReturnStaysExplained(l, s, d, v);
    case _ => OutsideStaysExplained(l, s, a, c);
  }

  lemma {:induction false} RunStaysExplained(l: Limits, actions: seq<Action>, c: Id)
    ensures var s := Run(l, Init(l), actions); Good(Of(s, c)) && Explained(s.world, c, Of(s, c)) && DrainsWhenClosed(s)
  {
    RunKeepsInv(l, actions);
    var s := Run(l, Init(l), actions);
    assert Good(Of(s, c));
    if actions != [] {
      var front, a := actions[..|actions| - 1], actions[|actions| - 1];
      RunStaysExplained(l, front, c);
      var before := Run(l, Init(l), front);
      StaysClosed(l, before, a);
      if c == Subject(before, a) {
        SubjectStaysExplained(l, before, a, c);
      } else {
        OthersUntouched(l, before, a, c);
        WorldOnlyGrows(l, before, a, c, Of(before, c));
      }
    }
  }

  /** What is sent and what is returned, in every interleaving. A reply is the value of the fn if
      that ran; else ErrBulkheadFull after Close, or the error of a context that has ended. A
      caller comes back with ErrBulkheadFull only after Close or without its fn ever having been
      started, and with a context's error only once its context or queue deadline is over. And a
      request handed over is never lost: its answer is under way. */
  lemma AnswersAreExplained(l: Limits, actions: seq<Action>, c: Id)
    ensures var s := Run(l, Init(l), actions);
            && (c in s.ledger.reply ==>
                  match s.ledger.reply[c]
                  case Returned(v) => c in s.ledger.returned && v == s.ledger.returned[c]
                  case Full => s.world.closed && s.ledger.runs[c] == 0
                  case ContextError => c in s.world.cancelled && s.ledger.runs[c] == 0)
            && (HasLeft(s, c) ==>
                  match s.callers[c].result
                  case Returned(v) => c in s.ledger.returned && v == s.ledger.returned[c]
                  case Full => s.world.closed || s.ledger.runs[c] == 0
                  case ContextError => QueueOver(s, c))
            && (c in s.callers && s.callers[c].Waiting? ==> UnderWay(Of(s, c)))
  {
    RunStaysExplained(l, actions, c);
  }

  /** A caller whose fn was run, and that was not cancelled, timed out or closed out, ends with
      the value of its fn. */
  lemma OwnValueComesBack(l: Limits, actions: seq<Action>, c: Id)
    requires var s := Run(l, Init(l), actions);
             HasLeft(s, c) && !s.world.closed && !QueueOver(s, c) && s.ledger.runs[c] > 0
    ensures var s := Run(l, Init(l), actions);
            c in s.ledger.returned && s.callers[c].result == Returned(s.ledger.returned[c])
  {
    AnswersAreExplained(l, actions, c);
  }

  lemma ReplyIsTaken(l: Limits, s: State, c: Id)
    requires c in s.callers && s.callers[c].Waiting? && c in s.ledger.reply && s.queueSem > 0
    ensures var u := Apply(l, Apply(l, s, CallerStep(c, OnReply)), CallerStep(c, OnReply));
            c in u.callers && u.callers[c] == Done(s.ledger.reply[c])
  {
  }

  lemma ReplyIsSent(l: Limits, s: State, c: Id)
    requires c in s.callers && c in s.runners && s.runners[c].Replying? && c !in s.ledger.reply
    ensures var t := Apply(l, s, RunnerStep(c));
            && t.callers == s.callers && t.queueSem == s.queueSem
            && c in t.ledger.reply && t.ledger.reply[c] == Returned(s.runners[c].value)
  {
  }

  predicate OwnSteps(actions: seq<Action>, c: Id) {
    forall a <- actions :: a == RunnerStep(c) || a == CallerStep(c, OnReply)
  }

  lemma TakesReply(l: Limits, s: State, actions: seq<Action>, c: Id) returns (more: seq<Action>)
    requires OwnSteps(actions, c)
    requires var t := Run(l, s, actions);
             c in t.callers && t.callers[c].Waiting? && c in t.ledger.reply && t.queueSem > 0
    ensures OwnSteps(more, c)
    ensures var u := Run(l, s, more);
            c in u.callers && u.callers[c] == Done(Run(l, s, actions).ledger.reply[c])
  {
    var take := CallerStep(c, OnReply);
    ReplyIsTaken(l, Run(l, s, actions), c);
    RunSnoc(l, s, actions, take);
    RunSnoc(l, s, actions + [take], take);
    more := actions + [take] + [take];
  }

  lemma WaitingComesBack(l: Limits, s: State, c: Id) returns (actions: seq<Action>)
    requires Inv(l, s) && c in s.callers && s.callers[c].Waiting? && c in s.ledger.returned
    requires UnderWay(Of(s, c)) && Good(Of(s, c)) && (c in s.ledger.reply ==> s.ledger.reply[c].Returned?)
    ensures OwnSteps(actions, c)
    ensures var t := Run(l, s, actions);
            c in t.callers && t.callers[c] == Done(Returned(s.ledger.returned[c]))
  {
    assert c in Where(s.callers, HoldsQueue);
    actions := [];
    if c !in s.ledger.reply {
      ReplyIsSent(l, s, c);
      RunSnoc(l, s, actions, RunnerStep(c));
      actions := actions + [RunnerStep(c)];
    }
    actions := TakesReply(l, s, actions, c);
  }

  /** ... and once its fn has returned it can always end so, by steps of its own and of the
      goroutine that ran the fn. */
  lemma ValueCanComeBack(l: Limits, before: seq<Action>, c: Id) returns (actions: seq<Action>)
    requires var s := Run(l, Init(l), before);
             c in s.ledger.returned && c in s.callers && (s.callers[c].Waiting? || s.callers[c].Releasing?)
    ensures OwnSteps(actions, c)
    ensures var s := Run(l, Init(l), before);
            var t := Run(l, s, actions);
            c in t.callers && t.callers[c] == Done(Returned(s.ledger.returned[c]))
  {
    RunKeepsInv(l, before);
    RunStaysExplained(l, before, c);
    var s := Run(l, Init(l), before);
    if s.callers[c].Releasing? {
      assert c in Where(s.callers, HoldsSem);
      RunSnoc(l, s, [], CallerStep(c, OnReply));
      actions := [] + [CallerStep(c, OnReply)];
    } else {
      actions := WaitingComesBack(l, s, c);
    }
  }

  /** An open bulkhead turns a caller away in exactly one step: with every semaphore slot in use
      when it tried, it finds no queue or every queue slot taken too. */
  lemma TurnedAwayExactly(l: Limits, actions: seq<Action>, c: Id, select: Case)
    requires var s := Run(l, Init(l), actions);
             !s.world.closed && c in s.callers
    ensures var s := Run(l, Init(l), actions);
            var t := Apply(l, s, CallerStep(c, select));
            && (s.callers[c].Starting? ==> t.callers[c].Trying?)
            && (s.callers[c].Trying? && select.Acquire? ==> (t.callers[c].Running? <==> s.sem < l.maxConcurrent))
            && (s.callers[c].Trying? && select.Default? ==> 
                  (t.callers[c].Enqueueing? <==> s.sem == l.maxConcurrent && c !in s.world.cancelled))
            && (s.callers[c].Enqueueing? && l.maxQueue == 0 ==> t.callers[c] == Done(Full))
            && (s.callers[c].Enqueueing? && l.maxQueue > 0 && select.Acquire? ==>
                  (t.callers[c].Sending? <==> s.queueSem < l.maxQueue))
            && (s.callers[c].Enqueueing? && l.maxQueue > 0 && select.Default? ==>
                  (t.callers[c] == Done(Full) <==> s.queueSem == l.maxQueue && !QueueOver(s, c)))
            && (t.callers[c] == Done(Full) && s.callers[c] != Done(Full) ==>
                  s.callers[c].Enqueueing? && s.queueSem == l.maxQueue)
  {
    RunKeepsInv(l, actions);
    RunStaysExplained(l, actions, c);
  }

  /** A call that came after Close. */
  predicate Latecomer(q: Request) {
    Untouched(q) && (q.caller.None? || q.caller.value.Starting? || q.caller.value == Done(Full))
  }

  lemma LatecomerStays(l: Limits, s: State, a: Action, c: Id)
    requires s.world.closed && Latecomer(Of(s, c))
    ensures Apply(l, s, a).world.closed && Latecomer(Of(Apply(l, s, a), c))
  {
    if c != Subject(s, a) {
      OthersUntouched(l, s, a, c);
    }
    match a
    case CallerStep(d, select) =>
      if d in s.callers {
        assert StepCaller(l, s, d, select).world == s.world;
      }
    case WorkerStep(select) => assert StepWorker(l, s, select).world == s.world;
    case _ =>
  }

  /** After Close no new call runs: it comes back with ErrBulkheadFull. */
  lemma {:induction false} ClosedRunsNobodyNew(l: Limits, s: State, c: Id, actions: seq<Action>)
    requires s.world.closed && c !in s.callers && Untouched(Of(s, c))
    ensures var t := Run(l, s, actions);
            && t.world.closed && Latecomer(Of(t, c))
            && t.ledger.runs[c] == 0
            && (c in t.callers ==> t.callers[c] in {Starting, Done(Full)})
  {
    if actions != [] {
      ClosedRunsNobodyNew(l, s, c, actions[..|actions| - 1]);
      LatecomerStays(l, Run(l, s, actions[..|actions| - 1]), actions[|actions| - 1], c);
    }
  }

  lemma CancelledCallerLeaves(l: Limits, s: State, c: Id)
    requires c in s.callers && c in s.world.cancelled
    requires s.callers[c].Trying? || (s.callers[c].Enqueueing? && l.maxQueue > 0)
             || s.callers[c].Sending? || s.callers[c].Waiting?
    ensures Apply(l, s, CallerStep(c, OnContext))
         == At(s, c, if s.callers[c].Trying? || s.callers[c].Enqueueing? then Done(ContextError)
                     else Leaving(ContextError))
  {
  }

  /** Once its context has ended, a caller that is not running its fn can leave by its own steps
      alone, with the error of the context. */
  lemma CancelReleasesWaiters(l: Limits, actions: seq<Action>, c: Id)
    requires var s := Run(l, Init(l), actions);
             && c in s.callers && c in s.world.cancelled
             && (s.callers[c].Trying? || (s.callers[c].Enqueueing? && l.maxQueue > 0)
                 || s.callers[c].Sending? || s.callers[c].Waiting?)
    ensures var s := Run(l, Init(l), actions);
            var t := Apply(l, Apply(l, s, CallerStep(c, OnContext)), CallerStep(c, OnClosed));
            && c in t.callers && t.callers[c] == Done(ContextError)
            && t.ledger.runs == s.ledger.runs
  {
    RunKeepsInv(l, actions);
    var s := Run(l, Init(l), actions);
    if HoldsQueue(s.callers[c]) {
      assert c in Where(s.callers, HoldsQueue);
    }
    CancelledCallerLeaves(l, s, c);
    LeavingCallerIsDone(l, Apply(l, s, CallerStep(c, OnContext)), c);
  }

  // ----- The worker on its own -----

  lemma HolderRefuses(l: Limits, s: State, c: Id, select: Case)
    requires s.worker == Holding(c) && c !in s.ledger.reply
    requires (select.OnContext? && c in s.world.cancelled) || (select.OnClosed? && s.world.closed)
    ensures var t := Apply(l, Apply(l, s, WorkerStep(select)), WorkerStep(Default));
            && t.ledger.reply == s.ledger.reply[c := if select.OnContext? then ContextError else Full]
            && t.worker == if select.OnContext? then Idle else Draining
  {
  }

  /** A request the worker holds is refused by the worker alone as soon as its caller's context has
      ended or the bulkhead is closed: it need not wait for a semaphore slot. */
  lemma HeldIsRefused(l: Limits, actions: seq<Action>, c: Id, select: Case)
    requires var s := Run(l, Init(l), actions);
             && s.worker == Holding(c)
             && ((select.OnContext? && c in s.world.cancelled) || (select.OnClosed? && s.world.closed))
    ensures var s := Run(l, Init(l), actions);
            var t := Apply(l, Apply(l, s, WorkerStep(select)), WorkerStep(Default));
            && t.ledger.reply == s.ledger.reply[c := if select.OnContext? then ContextError else Full]
            && t.worker == if select.OnContext? then Idle else Draining
  {
    RunKeepsInv(l, actions);
    assert Good(Of(Run(l, Init(l), actions), c));
    HolderRefuses(l, Run(l, Init(l), actions), c, select);
  }

  ghost predicate CanStop(l: Limits, s: State) {
    exists actions :: Run(l, s, actions).worker.Stopped?
  }

  lemma {:induction false} RunFirst(l: Limits, s: State, a: Action, rest: seq<Action>)
    ensures Run(l, Apply(l, s, a), rest) == Run(l, s, [a] + rest)
  {
    if rest == [] {
      assert [a] + rest == [] + [a];
      RunSnoc(l, s, [], a);
    } else {
      RunFirst(l, s, a, rest[..|rest| - 1]);
      assert ([a] + rest)[..|rest|] == [a] + rest[..|rest| - 1];
    }
  }

  lemma StopsAfter(l: Limits, s: State, a: Action)
    requires CanStop(l, Apply(l, s, a))
    ensures CanStop(l, s)
  {
    var rest :| Run(l, Apply(l, s, a), rest).worker.Stopped?;
    RunFirst(l, s, a, rest);
    assert Run(l, s, [a] + rest).worker.Stopped?;
  }

  predicate IsSending(pc: Caller) {
    pc.Sending?
  }

  /** The worker takes a waiting sender's request and refuses it. */
  lemma DrainsOne(l: Limits, s: State, c: Id)
    requires Inv(l, s) && s.worker.Draining? && c in s.callers && s.callers[c].Sending?
    ensures var t := Apply(l, Apply(l, s, Handoff(c)), WorkerStep(Default));
            && t.worker.Draining? && t.world == s.world
            && t.callers == s.callers[c := Waiting]
            && c in t.ledger.reply && t.ledger.reply[c] == Full
  {
    assert Good(Of(s, c));
  }

  lemma {:induction false} DrainingStops(l: Limits, s: State)
    requires Inv(l, s) && s.worker.Draining?
    ensures CanStop(l, s)
    decreases Tally(s.callers, IsSending)
  {
    if SenderReady(s) {
      var c :| c in s.callers && s.callers[c].Sending?;
      var taken := Apply(l, s, Handoff(c));
      var t := Apply(l, taken, WorkerStep(Default));
      DrainsOne(l, s, c);
      TallyUpdate(s.callers, c, Waiting, IsSending);
      ApplyKeepsInv(l, s, Handoff(c));
      ApplyKeepsInv(l, taken, WorkerStep(Default));
      DrainingStops(l, t);
      StopsAfter(l, taken, WorkerStep(Default));
      StopsAfter(l, s, Handoff(c));
    } else {
      assert Run(l, Apply(l, s, WorkerStep(Default)), []).worker.Stopped?;
      StopsAfter(l, s, WorkerStep(Default));
    }
  }

  lemma ClosedWorkerDrains(l: Limits, s: State)
    requires Inv(l, s) && s.world.closed && (s.worker.Idle? || s.worker.Holding? || s.worker.Refusing?)
    ensures var t := Apply(l, s, WorkerStep(OnClosed));
            && (s.worker.Idle? ==> t.worker.Draining?)
            && (s.worker.Holding? ==> t.worker.Refusing?)
            && (s.worker.Refusing? ==> t.worker.Draining? || t.worker.Idle?)
            && t.world == s.world
  {
    if !s.worker.Idle? {
      assert Good(Of(s, s.worker.id));
    }
  }

  /** How far the worker is from draining. */
  function StepsToDraining(worker: Worker): nat {
    match worker
    case Holding(_) => 3
    case Refusing(_, _, _) => 2
    case Idle => 1
    case _ => 0
  }

  lemma ClosedStops(l: Limits, s: State)
    requires Inv(l, s) && s.world.closed && !s.worker.Absent?
    ensures CanStop(l, s)
    decreases StepsToDraining(s.worker)
  {
    if s.worker.Stopped? {
      assert Run(l, s, []).worker.Stopped?;
    } else if s.worker.Draining? {
      DrainingStops(l, s);
    } else {
      ClosedWorkerDrains(l, s);
      ApplyKeepsInv(l, s, WorkerStep(OnClosed));
      ClosedStops(l, Apply(l, s, WorkerStep(OnClosed)));
      StopsAfter(l, s, WorkerStep(OnClosed));
    }
  }

  /** After Close the worker can always stop, in every reachable state, without waiting for a slot
      or a context: it refuses the request it holds and those still being sent. */
  lemma CloseStopsTheWorker(l: Limits, actions: seq<Action>)
    requires Run(l, Init(l), actions).world.closed && l.maxQueue > 0
    ensures CanStop(l, Run(l, Init(l), actions))
  {
    RunKeepsInv(l, actions);
    WorkerIsThere(l, actions);
    ClosedStops(l, Run(l, Init(l), actions));
  }

  lemma {:induction false} WorkerIsThere(l: Limits, actions: seq<Action>)
    requires l.maxQueue > 0
    ensures !Run(l, Init(l), actions).worker.Absent?
  {
    if actions != [] {
      WorkerIsThere(l, actions[..|actions| - 1]);
      WorkerStays(l, Run(l, Init(l), actions[..|actions| - 1]), actions[|actions| - 1]);
    }
  }

  lemma WorkerStays(l: Limits, s: State, a: Action)
    requires !s.worker.Absent?
    ensures !Apply(l, s, a).worker.Absent?
  {
    match a
    case CallerStep(c, select) =>
      if c in s.callers {
        assert StepCaller(l, s, c, select).worker == s.worker;
      }
    case _ =>
  }
}
