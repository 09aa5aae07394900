/** One reconcile of the keycode controller as a function of the world it reads and of
    everything outside its control: which calls fail, what they reply, what time it is. */
module KeycodeReconcile {
  import opened Options
  import opened KeycodeTypes
  import opened KeycodeHandlers

  /** Thirty minutes in nanoseconds. */
  const RETRY_LIMIT := 30 * 60 * 1_000_000_000

  /** The detail summary written when the repository gave no detail. */
  const EMPTY_SUMMARY := "{}"

  datatype GetOutcome = Found | NotFound | GetFailed

  datatype LockOutcome = Owned | NotOwned | LockFailed

  /** The deferred status write: its own read, repository lookup and update. */
  datatype Writer = Writer(get: GetOutcome, repositoryOk: bool, summary: Option<string>, updateOk: bool)
  {
    predicate Lands() {
      get == Found && updateOk
    }

    predicate ForcesRequeue() {
      get == Found && (!repositoryOk || summary == None || !updateOk)
    }
  }

  datatype Inputs = Inputs(
    get: GetOutcome,
    lock: LockOutcome,
    now: int,
    repositoryOk: bool,
    rpcs: Rpcs,
    writer: Writer,
    endTime: int)
  {
    predicate IsOwned() {
      get == Found && lock == Owned
    }
  }

  datatype Task = Task(code: string, state: State)

  /** A lock-owning reconcile in retrospect: when it passed the retry gate, if it did, when
      the timer was handled and the local Requeue flag it saw; then the code and state the
      reconcile ended with, whether the object was being deleted, and the events it made. */
  datatype Tick = Tick(
    started: Option<int>,
    ended: int,
    requeue: bool,
    task: Task,
    deleting: bool,
    events: seq<Event>)

  /** The repository, the stored object, the controller's caches for its key, and every
      event the event service was handed (`reported`). `stuck`
      means a worker waits on the full event channel, so its key is never served again. */
  datatype World = World(
    codes: seq<string>,
    service: Service,
    firstRetryTime: Option<int>,
    buffer: seq<Event>,
    lastTask: Task,
    history: seq<Entry>,
    timeline: seq<Tick>,
    reported: seq<Event>,
    stuck: bool)

  /** `returned` is the Requeue flag the caller gets, `requeue` the local one after the
      deferred writer ran, `submitted` the events handed to the event service. */
  datatype Result = Result(
    world: World,
    returned: bool,
    requeue: bool,
    submitted: Option<seq<Event>>,
    blocked: bool)

  datatype Handling = Handling(store: Store, service: Service, requeue: bool, blocked: bool)

  function WithError(svc: Service, e: ErrorMessage): Service {
    svc.(status := svc.status.(lastErrorMessage := e))
  }

  function AfterHandleKeycode(h: Handled, e: ErrorMessage): Handling {
    match h.outcome
    case Finished => Handling(h.store, h.service, true, false)
    case Failed => Handling(h.store, WithError(h.service, e), true, false)
    case Blocked => Handling(h.store, h.service, false, true)
  }

  function HandleEmpty(s: Store, svc: Service, r: Rpcs): Handling {
    var (s1, end) := HandleEmptyKeycode(s, svc, r);
    match end
    case Finished =>
      Handling(s1, svc.(spec := Spec("", ""), status := Status("", "", WaitingKeycode, NoError, "")), false, false)
    case Failed => Handling(s1, WithError(svc, HandleEmptyFailed), true, false)
    case Blocked => Handling(s1, svc, false, true)
  }

  function Poll(s: Store, svc: Service, r: Rpcs): Handling {
    if r.registration == None || r.detail == None then
      Handling(s, WithError(svc, PollFailed), true, false)
    else if r.detail.value then
      var s1 := s.(log := s.log + [RegisteredReply(svc.spec.codeNumber)]);
      Handling(s1, svc.(spec := svc.spec.(signatureData := r.registration.value),
                        status := Status(svc.spec.codeNumber, "", Done, NoError, "")), false, false)
    else
      Handling(s, svc.(status := Status(svc.spec.codeNumber, r.registration.value, WaitingSignatureData, NoError, "")),
               false, false)
  }

  function SendSignature(s: Store, svc: Service, r: Rpcs): Handling {
    if svc.spec.signatureData == "" then Handling(s, svc, false, false)
    else if !r.signatureOk then Handling(s, WithError(svc, HandleSignatureFailed), true, false)
    else
      Handling(s.(log := s.log + [SignatureAccepted(svc.spec.codeNumber, svc.spec.signatureData)]),
               svc.(status := svc.status.(lastErrorMessage := NoError, state := Done)), false, false)
  }

  /** The part of Reconcile behind the lock check and the retry gate. */
  function Handle(s: Store, svc: Service, inputs: Inputs): Handling {
    var persisted := inputs.writer.Lands();
    if !inputs.repositoryOk then Handling(s, WithError(svc, GetRepositoryFailed), true, false)
    else if svc.IsCodeNumberEmpty() then HandleEmpty(s, svc, inputs.rpcs)
    else if !svc.IsCodeNumberUpdated() && svc.status.state == Done then Handling(s, svc, false, false)
    else if svc.IsCodeNumberUpdated() then
      AfterHandleKeycode(HandleKeycode(s, svc, inputs.rpcs, persisted), UpdateKeycodeFailed)
    else match svc.status.state
      case Default => AfterHandleKeycode(HandleKeycode(s, svc, inputs.rpcs, persisted), HandleKeycodeFailed)
      case WaitingKeycode => AfterHandleKeycode(HandleKeycode(s, svc, inputs.rpcs, persisted), HandleKeycodeFailed)
      case PollingRegistrationData => Poll(s, svc, inputs.rpcs)
      case WaitingSignatureData => SendSignature(s, svc, inputs.rpcs)
      case _ => Handling(s, svc, false, false)
  }

  predicate GateOpen(w: World, inputs: Inputs) {
    w.firstRetryTime == None || inputs.now - w.firstRetryTime.value <= RETRY_LIMIT
  }

  /** The object as the deferred writer stores it. */
  function Stored(prior: Service, svc: Service, wr: Writer): Service {
    if !wr.Lands() then prior
    else
      var summary := if !wr.repositoryOk then svc.status.summary
                     else if wr.summary == None then EMPTY_SUMMARY else wr.summary.value;
      prior.(spec := svc.spec, status := svc.status.(summary := summary))
  }

  function TaskOf(svc: Service): Task {
    Task(svc.spec.codeNumber, svc.status.state)
  }

  predicate NeedToFlush(svc: Service, last: Task) {
    svc.deleting || last != TaskOf(svc)
  }

  /** The deferred functions in the order they run: status write, retry timer, event
      flush, last task. */
  function Deferred(w: World, h: Handling, started: Option<int>, inputs: Inputs): Result {
    var requeue := h.requeue || inputs.writer.ForcesRequeue();
    var timer :=
      if !requeue then None
      else if w.firstRetryTime == None then Some(inputs.endTime) else w.firstRetryTime;
    var submitted := if NeedToFlush(h.service, w.lastTask) then Some(h.store.buffer) else None;
    var task := if h.service.deleting then w.lastTask else TaskOf(h.service);
    var tick := Tick(started, inputs.endTime, requeue, TaskOf(h.service), h.service.deleting, h.store.buffer);
    Result(
      World(h.store.codes, Stored(w.service, h.service, inputs.writer), timer, [], task,
            w.history + h.store.log, w.timeline + [tick],
            w.reported + (if submitted.Some? then submitted.value else []), false),
      h.requeue, requeue, submitted, false)
  }

  function Reconcile(w: World, inputs: Inputs): Result {
    if w.stuck then Result(w, false, false, None, true)
    else if !inputs.IsOwned() then
      var requeue := inputs.get == GetFailed || (inputs.get == Found && inputs.lock == LockFailed);
      Result(w, requeue, requeue, None, false)
    else
      var s := Store(w.codes, w.buffer, []);
      if !GateOpen(w, inputs) then Deferred(w, Handling(s, w.service, false, false), None, inputs)
      else
        var h := Handle(s, w.service, inputs);
        if h.blocked then
          // The deferred functions never run; only what the repository did remains.
          Result(w.(codes := h.store.codes, buffer := h.store.buffer,
                    history := w.history + h.store.log, stuck := true),
                 false, false, None, true)
        else Deferred(w, h, Some(inputs.now), inputs)
  }

  // ------------------------------------------------------------------------- runs

  /** Between reconciles the user rewrites the keycode section or asks for deletion, and
      the operator may restart, which empties its caches. A crash inside a reconcile is an
      `Act` whose calls fail from some point on and whose write is lost, then a `Restart`. */
  datatype Step = Edit(spec: Spec) | MarkDeleting | Restart | Act(inputs: Inputs)

  function Take(w: World, step: Step): World {
    match step
    case Edit(spec) => w.(service := w.service.(spec := spec))
    case MarkDeleting => w.(service := w.service.(deleting := true))
    case Restart =>
      w.(firstRetryTime := None, buffer := [], lastTask := Task("", Default),
         timeline := [], reported := [], stuck := false)
    case Act(inputs) => Reconcile(w, inputs).world
  }

  function Run(w: World, steps: seq<Step>): World
    decreases |steps|
  {
    if steps == [] then w
    else Take(Run(w, steps[..|steps| - 1]), steps[|steps| - 1])
  }

  /** A controller that has just started, over any repository and any stored object. */
  predicate Fresh(w: World) {
    && w.firstRetryTime == None && w.buffer == [] && w.lastTask == Task("", Default)
    && w.history == [] && w.timeline == [] && w.reported == [] && !w.stuck
  }
}
