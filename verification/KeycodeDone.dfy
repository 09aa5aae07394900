/** State Done is always earned: by a Registered reply or by an accepted signature that
    came after the code was last sent or adopted. */
module KeycodeDone {
  import opened Options
  import opened KeycodeTypes
  import opened KeycodeHandlers
  import opened KeycodeReconcile
  import opened KeycodeOutcomes

  /** The repository said the code is registered, or took a signature for it. */
  predicate Earns(e: Entry, code: string) {
    e == RegisteredReply(code) || (e.SignatureAccepted? && e.code == code)
  }

  /** The code's registration starts over: it was sent, or adopted. Whether an adoption counts
      when the status write of its reconcile was lost is what `lost` says. */
  predicate StartsOver(e: Entry, code: string, lost: bool) {
    e == Sent(code) || (e.Adopted? && e.code == code && (e.persisted || lost))
  }

  ghost predicate Justified(history: seq<Entry>, code: string, lost: bool) {
    exists j :: 0 <= j < |history| && Earns(history[j], code)
                && forall k :: j < k < |history| ==> !StartsOver(history[k], code, lost)
  }

  ghost predicate DoneIsJustified(w: World, lost: bool) {
    w.service.status.state == Done ==> Justified(w.history, w.service.status.codeNumber, lost)
  }

  lemma {:induction false} DeleteAllLogsOnlyDeletions(s: Store, details: seq<string>, ok: nat, blame: Blame)
    ensures var log := DeleteAll(s, details, ok, blame).0.log;
            s.log <= log && forall i :: |s.log| <= i < |log| ==> log[i].Deleted?
    decreases |details|
  {
    if details != [] {
      if details[0] == "" {
        DeleteAllLogsOnlyDeletions(s, details[1..], ok, blame);
      } else if ok > 0 {
        var (s1, full) := Emit(Delete(s, details[0]), Event(DeleteSucceeded, details[0]));
        if !full {
          DeleteAllLogsOnlyDeletions(s1, details[1..], ok - 1, blame);
        }
      }
    }
  }

  /** The log of an update: deletions, then at most one send or adoption of a code. */
  lemma HandleKeycodeLog(s: Store, svc: Service, r: Rpcs, persisted: bool)
    requires s.log == []
    ensures var h := HandleKeycode(s, svc, r, persisted);
            && (forall i :: 0 <= i < |h.store.log| ==>
                  || h.store.log[i].Deleted?
                  || h.store.log[i] == Sent(svc.spec.codeNumber)
                  || (&& |s.codes| > 0 && IsSpecial(svc.spec.codeNumber) && r.listOk && h.outcome == Finished
                      && h.store.log == [Adopted(s.codes[0], persisted)]))
            && (h.service.status.state == Done ==>
                  h.service.status.codeNumber == svc.status.codeNumber && svc.status.state == Done
                  && forall i :: 0 <= i < |h.store.log| ==> h.store.log[i].Deleted? || h.outcome == Blocked)
  {
    DeleteAllLogsOnlyDeletions(s, s.codes, r.okDeletes, NewCode(svc.spec.codeNumber));
  }

  /** A handler that ends in Done either earns it as its last act or was already there
      and started nothing over. */
  lemma HandleDone(s: Store, svc: Service, inputs: Inputs)
    requires s.log == []
    ensures var h := Handle(s, svc, inputs);
            !h.blocked && h.service.status.state == Done ==>
              || (h.store.log != [] && Earns(h.store.log[|h.store.log| - 1], h.service.status.codeNumber))
              || (svc.status.state == Done && h.service.status.codeNumber == svc.status.codeNumber
                  && forall i :: 0 <= i < |h.store.log| ==> h.store.log[i].Deleted?)
  {
    if svc.IsCodeNumberEmpty() {
      DeleteAllLogsOnlyDeletions(s, s.codes, inputs.rpcs.okDeletes, DeletedCode);
    } else if svc.IsCodeNumberUpdated() || svc.status.state in {Default, WaitingKeycode} {
      HandleKeycodeLog(s, svc, inputs.rpcs, inputs.writer.Lands());
    }
  }

  /** While the stored status is Done for a code, no handler sends that code again, and
      an adoption, which never blocks, carries the fate of the status write. */
  lemma HandleFromDone(s: Store, svc: Service, inputs: Inputs)
    requires s.log == [] && svc.status.state == Done
    ensures var h := Handle(s, svc, inputs);
            forall i :: 0 <= i < |h.store.log| ==>
              || h.store.log[i].Deleted?
              || (h.store.log[i].Sent? && h.store.log[i].code != svc.status.codeNumber)
              || (&& h.store.log[i] == Adopted(s.codes[0], inputs.writer.Lands())
                  && h.service.status.state != Done && !h.blocked
                  && inputs.repositoryOk && inputs.rpcs.listOk && svc.IsCodeNumberUpdated()
                  && IsSpecial(svc.spec.codeNumber) && s.codes != [])
  {
    DeleteAllLogsOnlyDeletions(s, s.codes, inputs.rpcs.okDeletes, DeletedCode);
    HandleKeycodeLog(s, svc, inputs.rpcs, inputs.writer.Lands());
  }

  lemma ExtendJustified(history: seq<Entry>, more: seq<Entry>, code: string, lost: bool)
    requires Justified(history, code, lost)
    requires forall i :: 0 <= i < |more| ==> !StartsOver(more[i], code, lost)
    ensures Justified(history + more, code, lost)
  {
    var j :| 0 <= j < |history| && Earns(history[j], code)
             && forall k :: j < k < |history| ==> !StartsOver(history[k], code, lost);
    var all := history + more;
    assert all[j] == history[j];
    forall k | j < k < |all| ensures !StartsOver(all[k], code, lost) {
      if k >= |history| {
        assert all[k] == more[k - |history|];
      }
    }
  }

  lemma LastDecides(history: seq<Entry>, code: string, lost: bool)
    requires history != []
    ensures Earns(history[|history| - 1], code) ==> Justified(history, code, lost)
    ensures StartsOver(history[|history| - 1], code, lost) ==> !Justified(history, code, lost)
  {
  }

  /** The special-code branch is taken. */
  predicate Adopts(w: World, inputs: Inputs) {
    && !w.stuck && inputs.IsOwned() && GateOpen(w, inputs) && inputs.repositoryOk && inputs.rpcs.listOk
    && w.service.IsCodeNumberUpdated() && IsSpecial(w.service.spec.codeNumber) && w.codes != []
  }

  /** A Done object whose own code is adopted again by a reconcile that loses its write. */
  predicate LosesReadoption(w: World, inputs: Inputs) {
    && w.service.status.state == Done && Adopts(w, inputs)
    && w.codes[0] == w.service.status.codeNumber && !inputs.writer.Lands()
  }

  lemma LosingBreaks(w: World, inputs: Inputs)
    requires LosesReadoption(w, inputs)
    ensures !DoneIsJustified(Reconcile(w, inputs).world, true)
  {
    SpecialIsNotEmpty(w.service.spec.codeNumber);
    var v := Reconcile(w, inputs).world;
    assert v.history == w.history + [Adopted(w.codes[0], false)];
    LastDecides(v.history, w.service.status.codeNumber, true);
  }

  lemma HandlingKeepsDone(w: World, inputs: Inputs, lost: bool)
    requires DoneIsJustified(w, lost) && !(lost && LosesReadoption(w, inputs))
    requires !w.stuck && inputs.IsOwned() && GateOpen(w, inputs)
    ensures DoneIsJustified(Reconcile(w, inputs).world, lost)
  {
    var s := Store(w.codes, w.buffer, []);
    var h, v := Handle(s, w.service, inputs), Reconcile(w, inputs).world;
    assert v.history == w.history + h.store.log;
    if v.service.status.state == Done {
      HandleDone(s, w.service, inputs);
      if !h.blocked && inputs.writer.Lands() && h.store.log != []
        && Earns(h.store.log[|h.store.log| - 1], h.service.status.codeNumber) {
        LastDecides(v.history, v.service.status.codeNumber, lost);
      } else {
        HandleFromDone(s, w.service, inputs);
        ExtendJustified(w.history, h.store.log, w.service.status.codeNumber, lost);
      }
    }
  }

  /** One reconcile, from any state, keeps a stored Done justified; if adoptions count although
      their write was lost, exactly when it does not lose a re-adoption. */
  lemma ReconcileKeepsDoneJustifiedIff(w: World, inputs: Inputs, lost: bool)
    requires DoneIsJustified(w, lost)
    ensures DoneIsJustified(Reconcile(w, inputs).world, lost) <==> !(lost && LosesReadoption(w, inputs))
  {
    if lost && LosesReadoption(w, inputs) {
      LosingBreaks(w, inputs);
    } else if !w.stuck && inputs.IsOwned() && GateOpen(w, inputs) {
      HandlingKeepsDone(w, inputs, lost);
    } else {
      assert w.history + [] == w.history;
    }
  }

  /** No reconcile of the run loses a re-adoption. */
  predicate NoLostReadoption(w: World, steps: seq<Step>) {
    forall k :: 0 <= k < |steps| && steps[k].Act? ==> !LosesReadoption(Run(w, steps[..k]), steps[k].inputs)
  }

  lemma {:induction false} RunsKeepDoneJustified(w: World, steps: seq<Step>, lost: bool)
    requires DoneIsJustified(w, lost) && (lost ==> NoLostReadoption(w, steps))
    ensures DoneIsJustified(Run(w, steps), lost)
    decreases |steps|
  {
    if steps != [] {
      var n := |steps| - 1;
      var before := steps[..n];
      assert forall k :: 0 <= k < n ==> before[k] == steps[k] && before[..k] == steps[..k];
      RunsKeepDoneJustified(w, before, lost);
      if steps[n].Act? {
        ReconcileKeepsDoneJustifiedIff(Run(w, before), steps[n].inputs, lost);
      }
    }
  }

  /** In every run from a non-Done start, lost status writes, failures, restarts and edits
      included, a stored Done is justified; and so it is with every adoption counted, if no
      reconcile of the run loses a re-adoption. */
  lemma DoneIsAlwaysJustified(w: World, steps: seq<Step>)
    requires w.service.status.state != Done
    ensures DoneIsJustified(Run(w, steps), false)
    ensures NoLostReadoption(w, steps) ==> DoneIsJustified(Run(w, steps), true)
  {
    RunsKeepDoneJustified(w, steps, false);
    if NoLostReadoption(w, steps) {
      RunsKeepDoneJustified(w, steps, true);
    }
  }

  /** Exactly when one reconcile moves the stored state to Done: it polled and was told
      the code is registered, or it sent a signature and it was accepted. */
  lemma StepsToDoneIff(w: World, inputs: Inputs)
    requires w.service.status.state != Done
    ensures var svc := w.service;
            Reconcile(w, inputs).world.service.status.state == Done <==>
              && !w.stuck && inputs.IsOwned() && GateOpen(w, inputs) && inputs.repositoryOk && inputs.writer.Lands()
              && !svc.IsCodeNumberEmpty() && !svc.IsCodeNumberUpdated()
              && (|| (&& svc.status.state == PollingRegistrationData
                      && inputs.rpcs.registration.Some? && inputs.rpcs.detail == Some(true))
                  || (&& svc.status.state == WaitingSignatureData
                      && svc.spec.signatureData != "" && inputs.rpcs.signatureOk))
  {
    HandleKeycodeLog(Store(w.codes, w.buffer, []), w.service, inputs.rpcs, inputs.writer.Lands());
  }

  // -------------------------------------------------- adoption with a lost write

  /** The exception happens: from an empty repository, a code is sent, registered and Done;
      the user then enters the special code, and the write of the adoption is lost. */
  lemma UnwrittenAdoptionHappens(w: World, send: Inputs, poll: Inputs, adopt: Inputs)
    requires Fresh(w) && w.codes == [] && w.service.status == EMPTY_STATUS
    requires send.IsOwned() && send.repositoryOk && send.rpcs.listOk && send.rpcs.sendOk && send.writer.Lands()
    requires poll.IsOwned() && poll.repositoryOk && poll.rpcs.registration.Some? && poll.rpcs.detail == Some(true)
    requires poll.writer == send.writer && poll.now - send.endTime <= RETRY_LIMIT && !poll.writer.ForcesRequeue()
    requires adopt.IsOwned() && adopt.repositoryOk && adopt.rpcs.listOk && !adopt.writer.Lands()
    ensures var v := Run(w, [Edit(Spec("A", "")), Act(send), Act(poll), Edit(Spec(SPECIAL_KEYCODE, "")), Act(adopt)]);
            && v.service.status.state == Done && v.service.status.codeNumber == "A"
            && v.history == [Sent("A"), RegisteredReply("A"), Adopted("A", false)]
            && Justified(v.history, "A", false) && !Justified(v.history, "A", true)
  {
    var w1 := Take(w, Edit(Spec("A", "")));
    SendingA(w1, send);
    var w2 := Take(w1, Act(send));
    PollingA(w2, poll);
    var w3 := Take(w2, Act(poll));
    var w4 := Take(w3, Edit(Spec(SPECIAL_KEYCODE, "")));
    SpecialKeycodeIsSpecial();
    AdoptingA(w4, adopt, SPECIAL_KEYCODE);
    FiveSteps(w, Edit(Spec("A", "")), Act(send), Act(poll), Edit(Spec(SPECIAL_KEYCODE, "")), Act(adopt));
    var history := [Sent("A"), RegisteredReply("A"), Adopted("A", false)];
    assert Earns(history[1], "A") && !StartsOver(history[2], "A", false);
    LastDecides(history, "A", true);
  }

  lemma SendingA(w: World, send: Inputs)
    requires w.service.spec == Spec("A", "") && w.service.status == EMPTY_STATUS
    requires w.codes == [] && w.history == [] && w.buffer == [] && w.firstRetryTime == None && !w.stuck
    requires send.IsOwned() && send.repositoryOk && send.rpcs.listOk && send.rpcs.sendOk && send.writer.Lands()
    ensures var v := Take(w, Act(send));
            && v.codes == ["A"] && v.history == [Sent("A")] && v.buffer == [] && !v.stuck
            && v.firstRetryTime == Some(send.endTime) && v.service.spec.codeNumber == "A"
            && v.service.status.codeNumber == "A" && v.service.status.state == PollingRegistrationData
  {
  }

  lemma PollingA(w: World, poll: Inputs)
    requires w.codes == ["A"] && w.history == [Sent("A")] && w.buffer == [] && !w.stuck
    requires w.service.spec.codeNumber == w.service.status.codeNumber == "A"
    requires w.service.status.state == PollingRegistrationData && GateOpen(w, poll)
    requires poll.IsOwned() && poll.repositoryOk && poll.rpcs.registration.Some? && poll.rpcs.detail == Some(true)
    requires poll.writer.Lands() && !poll.writer.ForcesRequeue()
    ensures var v := Take(w, Act(poll));
            && v.codes == ["A"] && v.history == [Sent("A"), RegisteredReply("A")] && v.buffer == [] && !v.stuck
            && v.firstRetryTime == None && v.service.status.codeNumber == "A" && v.service.status.state == Done
  {
  }

  lemma AdoptingA(w: World, adopt: Inputs, code: string)
    requires w.codes == ["A"] && w.history == [Sent("A"), RegisteredReply("A")] && w.buffer == [] && !w.stuck
    requires w.firstRetryTime == None && w.service.spec == Spec(code, "") && IsSpecial(code) && |code| > 1
    requires w.service.status.codeNumber == "A" && w.service.status.state == Done
    requires adopt.IsOwned() && adopt.repositoryOk && adopt.rpcs.listOk && !adopt.writer.Lands()
    ensures var v := Take(w, Act(adopt));
            && v.service == w.service
            && v.history == [Sent("A"), RegisteredReply("A"), Adopted("A", false)]
  {
  }

  lemma RunOneMore(w: World, steps: seq<Step>, step: Step)
    ensures Run(w, steps + [step]) == Take(Run(w, steps), step)
  {
  }

  lemma FiveSteps(w: World, a: Step, b: Step, c: Step, d: Step, e: Step)
    ensures Run(w, [a, b, c, d, e]) == Take(Take(Take(Take(Take(w, a), b), c), d), e)
  {
    RunOneMore(w, [], a);
    RunOneMore(w, [a], b);
    RunOneMore(w, [a, b], c);
    RunOneMore(w, [a, b, c], d);
    RunOneMore(w, [a, b, c, d], e);
    assert [] + [a] == [a];
    assert [a] + [b] == [a, b];
    assert [a, b] + [c] == [a, b, c];
    assert [a, b, c] + [d] == [a, b, c, d];
    assert [a, b, c, d] + [e] == [a, b, c, d, e];
  }

  lemma SpecialKeycodeIsSpecial()
    ensures IsSpecial(SPECIAL_KEYCODE) && |SPECIAL_KEYCODE| == 30
  {
    NoDashNoChange(SPECIAL_KEYCODE);
  }
}
