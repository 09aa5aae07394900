/** The retry-timer cache is a summary of history: the end of the first reconcile in the
    current unbroken streak of reconciles that ended wanting a requeue. */
module KeycodeTimer {
  import opened Options
  import opened KeycodeTypes
  import opened KeycodeHandlers
  import opened KeycodeReconcile

  /** `first` begins the streak that reaches the end of the timeline: from it on every
      reconcile wanted a requeue, and the one before it, if any, did not. */
  predicate StreakFrom(t: seq<Tick>, first: int) {
    && 0 <= first < |t|
    && (forall i :: first <= i < |t| ==> t[i].requeue)
    && (first > 0 ==> !t[first - 1].requeue)
  }

  predicate InStreak(t: seq<Tick>) {
    t != [] && t[|t| - 1].requeue
  }

  /** The cache says nothing outside a streak, and names the streak's first end inside one. */
  ghost predicate Refines(cache: Option<int>, t: seq<Tick>) {
    if !InStreak(t) then cache == None
    else exists first :: StreakFrom(t, first) && cache == Some(t[first].ended)
  }

  /** Every handler that ran inside a streak began within the retry limit of its start. */
  ghost predicate NoLateStart(t: seq<Tick>) {
    forall i, first :: 0 <= i < |t| && t[i].started.Some? && StreakFrom(t[..i], first) ==>
      t[i].started.value - t[first].ended <= RETRY_LIMIT
  }

  ghost predicate TimerInvariant(w: World) {
    Refines(w.firstRetryTime, w.timeline) && NoLateStart(w.timeline)
  }

  lemma StreakIsUnique(t: seq<Tick>, a: int, b: int)
    requires StreakFrom(t, a) && StreakFrom(t, b)
    ensures a == b
  {
  }

  lemma StreakGrows(t: seq<Tick>, tick: Tick, first: int)
    requires tick.requeue
    requires if InStreak(t) then StreakFrom(t, first) else first == |t|
    ensures StreakFrom(t + [tick], first)
  {
  }

  lemma TickKeepsRefinement(cache: Option<int>, t: seq<Tick>, tick: Tick)
    requires Refines(cache, t)
    ensures Refines(if !tick.requeue then None else if cache == None then Some(tick.ended) else cache, t + [tick])
  {
    if tick.requeue {
      if InStreak(t) {
        var first :| StreakFrom(t, first) && cache == Some(t[first].ended);
        StreakGrows(t, tick, first);
        assert (t + [tick])[first] == t[first];
      } else {
        StreakGrows(t, tick, |t|);
        assert (t + [tick])[|t|] == tick;
      }
    }
  }

  lemma TickKeepsNoLateStart(cache: Option<int>, t: seq<Tick>, tick: Tick)
    requires Refines(cache, t) && NoLateStart(t)
    requires tick.started.Some? && cache.Some? ==> tick.started.value - cache.value <= RETRY_LIMIT
    ensures NoLateStart(t + [tick])
  {
    var all := t + [tick];
    forall i, first | 0 <= i < |all| && all[i].started.Some? && StreakFrom(all[..i], first)
      ensures all[i].started.value - all[first].ended <= RETRY_LIMIT
    {
      if i < |t| {
        assert all[..i] == t[..i];
        assert t[i] == all[i] && t[first] == all[first];
      } else {
        assert all[..i] == t;
        assert InStreak(t);
        var f :| StreakFrom(t, f) && cache == Some(t[f].ended);
        StreakIsUnique(t, f, first);
      }
    }
  }

  lemma ReconcileKeepsTimer(w: World, inputs: Inputs)
    requires TimerInvariant(w)
    ensures TimerInvariant(Reconcile(w, inputs).world)
  {
    if !w.stuck && inputs.IsOwned() {
      var h := if GateOpen(w, inputs) then Handle(Store(w.codes, w.buffer, []), w.service, inputs)
               else Handling(Store(w.codes, w.buffer, []), w.service, false, false);
      if !h.blocked {
        var v := Reconcile(w, inputs).world;
        var tick := v.timeline[|w.timeline|];
        assert v.timeline == w.timeline + [tick];
        TickKeepsRefinement(w.firstRetryTime, w.timeline, tick);
        TickKeepsNoLateStart(w.firstRetryTime, w.timeline, tick);
      }
    }
  }

  lemma FreshTimer(w: World)
    requires Fresh(w)
    ensures TimerInvariant(w)
  {
  }

  lemma {:induction false} RunsKeepTimer(w: World, steps: seq<Step>)
    requires TimerInvariant(w)
    ensures TimerInvariant(Run(w, steps))
    decreases |steps|
  {
    if steps != [] {
      var n := |steps| - 1;
      RunsKeepTimer(w, steps[..n]);
      match steps[n] {
        case Act(inputs) => ReconcileKeepsTimer(Run(w, steps[..n]), inputs);
        case _ =>
      }
    }
  }

  /** In every run of a controller that has just started, the cache refines the history of
      lock-owning reconciles, and no handler in a streak starts more than thirty minutes after
      the streak's first end. */
  lemma TimerRefinesHistory(w: World, steps: seq<Step>)
    requires Fresh(w)
    ensures TimerInvariant(Run(w, steps))
  {
    FreshTimer(w);
    RunsKeepTimer(w, steps);
  }

  // ------------------------------------------------------------- retries nobody makes

  /** After a lock-owning reconcile the cache is empty exactly when the local Requeue flag
      was false, and otherwise keeps the first time it was set. */
  lemma CacheIffLocalRequeue(w: World, inputs: Inputs)
    requires inputs.IsOwned() && !Reconcile(w, inputs).blocked
    ensures var r := Reconcile(w, inputs);
            && (r.world.firstRetryTime == None <==> !r.requeue)
            && (r.requeue && w.firstRetryTime.Some? ==> r.world.firstRetryTime == w.firstRetryTime)
  {
  }

  /** A gated reconcile does nothing to the license, asks for no other, and empties the cache
      exactly when its own status write does not fail. */
  lemma GatedReconcile(w: World, inputs: Inputs)
    requires !w.stuck && inputs.IsOwned() && !GateOpen(w, inputs)
    ensures var r := Reconcile(w, inputs);
            && r.world.codes == w.codes && r.world.history == w.history && !r.returned
            && r.world.service.(status := w.service.status) == w.service
            && r.world.service.status.(summary := "") == w.service.status.(summary := "")
            && r.world.firstRetryTime == if inputs.writer.ForcesRequeue() then w.firstRetryTime else None
  {
  }

  /** The handlers have nothing to retry: no call they need fails, and the state is one that
      waits for the user or for nothing. Applying a code always asks to be called again. */
  predicate NothingToRetry(w: World, inputs: Inputs) {
    var svc, r := w.service, inputs.rpcs;
    && inputs.repositoryOk
    && if svc.IsCodeNumberEmpty() then
         !svc.IsCodeNumberUpdated() || (r.listOk && NonBlankCount(w.codes) <= r.okDeletes)
       else
         !svc.IsCodeNumberUpdated()
         && match svc.status.state
            case Default => false
            case WaitingKeycode => false
            case PollingRegistrationData => r.registration.Some? && r.detail.Some?
            case WaitingSignatureData => svc.spec.signatureData == "" || r.signatureOk
            case Done => true
            case Unknown(_) => true
  }

  lemma HandlersAskForNothingIff(w: World, inputs: Inputs)
    requires |w.buffer| <= CHANNEL_CAPACITY && !Handle(Store(w.codes, w.buffer, []), w.service, inputs).blocked
    ensures !Handle(Store(w.codes, w.buffer, []), w.service, inputs).requeue <==> NothingToRetry(w, inputs)
  {
    if w.service.IsCodeNumberEmpty() {
      DeleteAllEffect(Store(w.codes, w.buffer, []), w.codes, inputs.rpcs.okDeletes, DeletedCode);
    }
  }

  /** The deferred writer's verdict reaches the timer but not the caller: a reconcile leaves
      a retry pending that nobody was asked to make exactly when the writer read the object but
      failed at anything after that, and the handlers, if they ran, had nothing to retry. */
  lemma CallerMissesRetryIff(w: World, inputs: Inputs)
    requires inputs.IsOwned() && |w.buffer| <= CHANNEL_CAPACITY && !Reconcile(w, inputs).blocked
    ensures var r := Reconcile(w, inputs);
            r.world.firstRetryTime.Some? && !r.returned <==>
              inputs.writer.ForcesRequeue() && (GateOpen(w, inputs) ==> NothingToRetry(w, inputs))
  {
    CacheIffLocalRequeue(w, inputs);
    if GateOpen(w, inputs) {
      HandlersAskForNothingIff(w, inputs);
    }
  }

  /** What such a retry costs: if the key is served again only after the limit, that reconcile
      touches nothing and asks for no other, and the gate stays shut behind it exactly when its
      own status write failed as well. */
  lemma MissedRetryShutsOut(w: World, missing: Inputs, late: Inputs, next: Inputs)
    requires missing.IsOwned() && |w.buffer| <= CHANNEL_CAPACITY && !Reconcile(w, missing).blocked
    requires missing.writer.ForcesRequeue() && (GateOpen(w, missing) ==> NothingToRetry(w, missing))
    requires late.IsOwned() && next.now >= late.now
    requires !GateOpen(Reconcile(w, missing).world, late)
    ensures var v := Reconcile(w, missing).world;
            var r := Reconcile(v, late);
            && r.world.codes == v.codes && r.world.history == v.history && !r.returned
            && (GateOpen(r.world, next) <==> !late.writer.ForcesRequeue())
  {
    CallerMissesRetryIff(w, missing);
    GatedReconcile(Reconcile(w, missing).world, late);
  }
}
