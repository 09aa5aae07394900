/** The event channel: empty between reconciles, faithful to what the repository was made
    to do, handed over once per change, and never full below a hundred listed codes. */
module KeycodeEvents {
  import opened Options
  import opened KeycodeTypes
  import opened KeycodeHandlers
  import opened KeycodeReconcile
  import opened KeycodeOutcomes

  /** The success events a log calls for, in order. */
  function Mirror(log: seq<Entry>): seq<Event> {
    if log == [] then []
    else
      var rest := Mirror(log[..|log| - 1]);
      match log[|log| - 1]
      case Deleted(c) => rest + [Event(DeleteSucceeded, c)]
      case Sent(c) => rest + [Event(AddSucceeded, c)]
      case _ => rest
  }

  predicate IsFailure(e: Event) {
    e.kind == AddFailed || e.kind == DeleteFailed
  }

  /** The events of one reconcile: a success event for every deletion and every send, in
      order, and at most one failure event, at the end. */
  predicate Faithful(events: seq<Event>, log: seq<Entry>) {
    || events == Mirror(log)
    || (events != [] && IsFailure(events[|events| - 1]) && events[..|events| - 1] == Mirror(log))
  }

  lemma MirrorSnoc(log: seq<Entry>, e: Entry)
    ensures Mirror(log + [e]) == Mirror(log) + Mirror([e])
  {
  }

  lemma {:induction false} DeleteAllIsFaithful(s: Store, details: seq<string>, ok: nat, blame: Blame)
    requires s.buffer == Mirror(s.log)
    ensures var (s1, end) := DeleteAll(s, details, ok, blame);
            && (end == Finished ==> s1.buffer == Mirror(s1.log))
            && (end == Failed ==> Faithful(s1.buffer, s1.log))
    decreases |details|
  {
    if details != [] {
      if details[0] == "" {
        DeleteAllIsFaithful(s, details[1..], ok, blame);
      } else if ok > 0 {
        MirrorSnoc(s.log, Deleted(details[0]));
        var (s1, full) := Emit(Delete(s, details[0]), Event(DeleteSucceeded, details[0]));
        if !full {
          DeleteAllIsFaithful(s1, details[1..], ok - 1, blame);
        }
      }
    }
  }

  lemma SendIsFaithful(s: Store, svc: Service)
    requires s.buffer == Mirror(s.log)
    ensures var h := SendAndReport(s, svc);
            h.outcome != Blocked ==> Faithful(h.store.buffer, h.store.log)
  {
  }

  lemma HandleKeycodeIsFaithful(s: Store, svc: Service, r: Rpcs, persisted: bool)
    requires s.buffer == [] && s.log == []
    ensures var h := HandleKeycode(s, svc, r, persisted);
            h.outcome != Blocked ==> Faithful(h.store.buffer, h.store.log)
  {
    if s.codes == [] {
      SendIsFaithful(s, svc);
    } else if IsSpecial(svc.spec.codeNumber) {
      MirrorSnoc(s.log, Adopted(s.codes[0], persisted));
    } else {
      var blame := NewCode(svc.spec.codeNumber);
      DeleteAllIsFaithful(s, s.codes, r.okDeletes, blame);
      var (s1, end) := DeleteAll(s, s.codes, r.okDeletes, blame);
      if end == Finished {
        SendIsFaithful(s1, Cleared(svc));
      }
    }
  }

  lemma HandleIsFaithful(s: Store, svc: Service, inputs: Inputs)
    requires s.buffer == [] && s.log == []
    ensures var h := Handle(s, svc, inputs);
            !h.blocked ==> Faithful(h.store.buffer, h.store.log)
  {
    DeleteAllIsFaithful(s, s.codes, inputs.rpcs.okDeletes, DeletedCode);
    HandleKeycodeIsFaithful(s, svc, inputs.rpcs, inputs.writer.Lands());
    MirrorSnoc([], RegisteredReply(svc.spec.codeNumber));
    MirrorSnoc([], SignatureAccepted(svc.spec.codeNumber, svc.spec.signatureData));
  }

  // ------------------------------------------------------------------ event by event

  function NonBlanks(codes: seq<string>): seq<string> {
    if codes == [] then [] else (if codes[0] == "" then [] else [codes[0]]) + NonBlanks(codes[1..])
  }

  lemma {:induction false} NonBlanksCount(codes: seq<string>)
    ensures |NonBlanks(codes)| == NonBlankCount(codes)
  {
    if codes != [] {
      NonBlanksCount(codes[1..]);
    }
  }

  function Deletions(codes: seq<string>): seq<Entry> {
    seq(|codes|, i requires 0 <= i < |codes| => Deleted(codes[i]))
  }

  function Successes(codes: seq<string>): seq<Event> {
    seq(|codes|, i requires 0 <= i < |codes| => Event(DeleteSucceeded, codes[i]))
  }

  /** The first codes of a list, as many as there are calls that succeed. */
  function FirstOf(codes: seq<string>, ok: nat): seq<string> {
    if ok <= |codes| then codes[..ok] else codes
  }

  /** Codes deleted in order as far as calls succeed, with an event for each; a failed one is
      reported under its own code or, where a keycode is being replaced, under the new one. */
  predicate InOrder(s: Store, s1: Store, all: seq<string>, ok: nat, blame: Blame) {
    && s1.log == s.log + Deletions(FirstOf(all, ok))
    && s1.buffer == s.buffer + Successes(FirstOf(all, ok))
                    + if ok >= |all| then []
                      else [Event(DeleteFailed, if blame.NewCode? then blame.code else all[ok])]
  }

  lemma OneInOrder(s: Store, s1: Store, s2: Store, code: string, rest: seq<string>, ok: nat, blame: Blame)
    requires ok > 0 && InOrder(s1, s2, rest, ok - 1, blame)
    requires s1.log == s.log + [Deleted(code)] && s1.buffer == s.buffer + [Event(DeleteSucceeded, code)]
    ensures InOrder(s, s2, [code] + rest, ok, blame)
  {
    assert FirstOf([code] + rest, ok) == [code] + FirstOf(rest, ok - 1);
    assert Deletions(FirstOf([code] + rest, ok)) == [Deleted(code)] + Deletions(FirstOf(rest, ok - 1));
    assert Successes(FirstOf([code] + rest, ok))
        == [Event(DeleteSucceeded, code)] + Successes(FirstOf(rest, ok - 1));
  }

  lemma {:induction false} DeletesInOrder(s: Store, details: seq<string>, ok: nat, blame: Blame)
    ensures var (s1, end) := DeleteAll(s, details, ok, blame);
            end != Blocked ==> InOrder(s, s1, NonBlanks(details), ok, blame)
    decreases |details|
  {
    if details == [] {
      assert Deletions([]) == [] && Successes([]) == [];
    } else if details[0] == "" {
      DeletesInOrder(s, details[1..], ok, blame);
      assert NonBlanks(details) == NonBlanks(details[1..]);
    } else if ok == 0 {
      assert FirstOf(NonBlanks(details), 0) == [] && Deletions([]) == [] && Successes([]) == [];
    } else {
      var (s1, full) := Emit(Delete(s, details[0]), Event(DeleteSucceeded, details[0]));
      if !full {
        DeletesInOrder(s1, details[1..], ok - 1, blame);
        var (s2, _) := DeleteAll(s1, details[1..], ok - 1, blame);
        if DeleteAll(s1, details[1..], ok - 1, blame).1 != Blocked {
          OneInOrder(s, s1, s2, details[0], NonBlanks(details[1..]), ok, blame);
        }
      }
    }
  }

  /** Emptying a keycode, entry by entry and event by event. */
  lemma EmptyingInOrder(s: Store, svc: Service, inputs: Inputs)
    requires s.buffer == [] && s.log == [] && svc.spec.codeNumber == ""
    ensures var h, r := Handle(s, svc, inputs), inputs.rpcs;
            var goes := inputs.repositoryOk && svc.status.codeNumber != "" && r.listOk;
            var all := if goes then NonBlanks(s.codes) else [];
            !h.blocked ==>
              && h.store.log == Deletions(FirstOf(all, r.okDeletes))
              && h.store.buffer == Successes(FirstOf(all, r.okDeletes))
                                   + if r.okDeletes >= |all| then [] else [Event(DeleteFailed, all[r.okDeletes])]
  {
    DeletesInOrder(s, s.codes, inputs.rpcs.okDeletes, DeletedCode);
  }

  /** Replacing a keycode by an ordinary one. A send that fails then makes no event. */
  lemma ReplacingInOrder(s: Store, svc: Service, r: Rpcs, persisted: bool)
    requires s.buffer == [] && s.log == [] && s.codes != [] && r.listOk && !IsSpecial(svc.spec.codeNumber)
    ensures var h, all, code := HandleKeycode(s, svc, r, persisted), NonBlanks(s.codes), svc.spec.codeNumber;
            h.outcome != Blocked ==>
              var sent := r.okDeletes >= |all| && r.sendOk;
              && h.store.log == Deletions(FirstOf(all, r.okDeletes)) + (if sent then [Sent(code)] else [])
              && h.store.buffer == Successes(FirstOf(all, r.okDeletes))
                                   + if sent then [Event(AddSucceeded, code)]
                                     else if r.okDeletes < |all| then [Event(DeleteFailed, code)] else []
  {
    DeletesInOrder(s, s.codes, r.okDeletes, NewCode(svc.spec.codeNumber));
    DeleteAllEffect(s, s.codes, r.okDeletes, NewCode(svc.spec.codeNumber));
    NonBlanksCount(s.codes);
  }

  /** Sending to an empty repository, or adopting: one event for the send, none else. */
  lemma SendingInOrder(s: Store, svc: Service, r: Rpcs, persisted: bool)
    requires s.buffer == [] && s.log == [] && r.listOk && (s.codes == [] || IsSpecial(svc.spec.codeNumber))
    ensures var h, code := HandleKeycode(s, svc, r, persisted), svc.spec.codeNumber;
            && h.outcome != Blocked
            && h.store.log == (if s.codes != [] then [Adopted(s.codes[0], persisted)]
                               else if r.sendOk then [Sent(code)] else [])
            && h.store.buffer == if s.codes != [] then []
                                 else if r.sendOk then [Event(AddSucceeded, code)] else [Event(AddFailed, code)]
  {
  }

  /** What an owned reconcile hands over and remembers: the events it made, exactly if the
      object is being deleted or ends with another code or state than was remembered; and the
      code and state it ends with, unless it is being deleted. */
  lemma HandsOverIff(w: World, inputs: Inputs)
    requires inputs.IsOwned() && !Reconcile(w, inputs).blocked
    ensures var r, s := Reconcile(w, inputs), Store(w.codes, w.buffer, []);
            var h := if GateOpen(w, inputs) then Handle(s, w.service, inputs) else Handling(s, w.service, false, false);
            var code, state := h.service.spec.codeNumber, h.service.status.state;
            && r.submitted == (if w.service.deleting || code != w.lastTask.code || state != w.lastTask.state
                               then Some(h.store.buffer) else None)
            && r.world.lastTask == (if w.service.deleting then w.lastTask else Task(code, state))
            && r.world.timeline == w.timeline + [Tick(
                 if GateOpen(w, inputs) then Some(inputs.now) else None, inputs.endTime, r.requeue,
                 Task(code, state), w.service.deleting, h.store.buffer)]
  {
  }

  // ------------------------------------------------------------------------- runs

  /** The code and state the last reconcile before `i` ended with that was not a deletion. */
  function TaskBefore(t: seq<Tick>, i: nat): Task
    requires i <= |t|
  {
    if i == 0 then Task("", Default)
    else if t[i - 1].deleting then TaskBefore(t, i - 1)
    else t[i - 1].task
  }

  predicate Submits(t: seq<Tick>, i: nat)
    requires i < |t|
  {
    t[i].deleting || t[i].task != TaskBefore(t, i)
  }

  /** What the event service should have been handed by the first `i` reconciles. */
  function ReportedBy(t: seq<Tick>, i: nat): seq<Event>
    requires i <= |t|
  {
    if i == 0 then []
    else ReportedBy(t, i - 1) + (if Submits(t, i - 1) then t[i - 1].events else [])
  }

  predicate EventInvariant(w: World) {
    && (!w.stuck ==> w.buffer == [])
    && w.lastTask == TaskBefore(w.timeline, |w.timeline|)
    && w.reported == ReportedBy(w.timeline, |w.timeline|)
  }

  lemma {:induction false} PrefixAgrees(t: seq<Tick>, tick: Tick, i: nat)
    requires i <= |t|
    ensures TaskBefore(t + [tick], i) == TaskBefore(t, i)
    ensures ReportedBy(t + [tick], i) == ReportedBy(t, i)
  {
    if i > 0 {
      PrefixAgrees(t, tick, i - 1);
      assert (t + [tick])[i - 1] == t[i - 1];
    }
  }

  lemma ReconcileKeepsEvents(w: World, inputs: Inputs)
    requires EventInvariant(w)
    ensures EventInvariant(Reconcile(w, inputs).world)
  {
    var v := Reconcile(w, inputs).world;
    if v.timeline != w.timeline {
      var tick := v.timeline[|w.timeline|];
      assert v.timeline == w.timeline + [tick];
      PrefixAgrees(w.timeline, tick, |w.timeline|);
    }
  }

  /** In every run the channel is empty between reconciles, and the event service has been
      handed, once and in order, exactly the events of the reconciles that ended with
      another code or state than the one before, or served an object being deleted. */
  lemma {:induction false} EventsReportedOnce(w: World, steps: seq<Step>)
    requires EventInvariant(w)
    ensures EventInvariant(Run(w, steps))
    decreases |steps|
  {
    if steps != [] {
      var n := |steps| - 1;
      EventsReportedOnce(w, steps[..n]);
      match steps[n] {
        case Act(inputs) => ReconcileKeepsEvents(Run(w, steps[..n]), inputs);
        case _ =>
      }
    }
  }

  /** The events a reconcile makes are faithful to what it did to the repository. */
  lemma ReconcileEventsAreFaithful(w: World, inputs: Inputs)
    requires w.buffer == [] && !w.stuck && inputs.IsOwned() && !Reconcile(w, inputs).blocked
    ensures var v := Reconcile(w, inputs).world;
            && |v.timeline| == |w.timeline| + 1
            && w.history <= v.history
            && Faithful(v.timeline[|w.timeline|].events, v.history[|w.history|..])
  {
    var s := Store(w.codes, w.buffer, []);
    var v := Reconcile(w, inputs).world;
    if GateOpen(w, inputs) {
      HandleIsFaithful(s, w.service, inputs);
      assert v.history[|w.history|..] == Handle(s, w.service, inputs).store.log;
    } else {
      assert v.history[|w.history|..] == [];
    }
  }

  // --------------------------------------------------------------------- blocking

  /** The deletion loop for an emptied keycode is reached. */
  predicate Empties(w: World, inputs: Inputs) {
    w.service.IsCodeNumberEmpty() && w.service.IsCodeNumberUpdated() && inputs.rpcs.listOk
  }

  /** The deletion loop for a new ordinary code is reached. */
  predicate Replaces(w: World, inputs: Inputs) {
    && !w.service.IsCodeNumberEmpty() && inputs.rpcs.listOk && w.codes != [] && !IsSpecial(w.service.spec.codeNumber)
    && (w.service.IsCodeNumberUpdated() || w.service.status.state in {Default, WaitingKeycode})
  }

  lemma EmptyingBlocksIff(s: Store, svc: Service, r: Rpcs)
    requires s.buffer == []
    ensures HandleEmptyKeycode(s, svc, r).1 == Blocked
       <==> svc.IsCodeNumberUpdated() && r.listOk && r.okDeletes >= 100 && NonBlankCount(s.codes) > 100
  {
    DeleteAllEffect(s, s.codes, r.okDeletes, DeletedCode);
  }

  lemma ReplacingBlocksIff(s: Store, svc: Service, r: Rpcs, persisted: bool)
    requires s.buffer == []
    ensures var n := NonBlankCount(s.codes);
            HandleKeycode(s, svc, r, persisted).outcome == Blocked
            <==> r.listOk && s.codes != [] && !IsSpecial(svc.spec.codeNumber) && r.okDeletes >= 100
                 && (n > 100 || (n == 100 && r.sendOk))
  {
    DeleteAllEffect(s, s.codes, r.okDeletes, NewCode(svc.spec.codeNumber));
  }

  /** Exactly when a reconcile blocks on the channel for ever: it deletes a hundred codes
      and has one more event to report, for another deletion or for the send. */
  lemma BlocksIff(w: World, inputs: Inputs)
    requires w.buffer == [] && !w.stuck
    ensures var n := NonBlankCount(w.codes);
            Reconcile(w, inputs).blocked <==>
              && inputs.IsOwned() && GateOpen(w, inputs) && inputs.repositoryOk
              && inputs.rpcs.okDeletes >= 100
              && (|| (n > 100 && (Empties(w, inputs) || Replaces(w, inputs)))
                  || (n == 100 && Replaces(w, inputs) && inputs.rpcs.sendOk))
  {
    var s := Store(w.codes, [], []);
    if w.service.IsCodeNumberEmpty() {
      EmptyingBlocksIff(s, w.service, inputs.rpcs);
    } else {
      ReplacingBlocksIff(s, w.service, inputs.rpcs, inputs.writer.Lands());
    }
  }

  /** With at most ninety-nine codes listed, no event is ever waited for. */
  lemma NeverBlocksBelowAHundred(w: World, inputs: Inputs)
    requires EventInvariant(w) && !w.stuck && |w.codes| <= 99
    ensures !Reconcile(w, inputs).blocked && !Reconcile(w, inputs).world.stuck
  {
    BlocksIff(w, inputs);
  }
}
