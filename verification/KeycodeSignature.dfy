/** Where a signature comes from: the user entered it with this code, and after the code was
    last sent or adopted unless the send found an empty repository. */
module KeycodeSignature {
  import opened Options
  import opened KeycodeTypes
  import opened KeycodeHandlers
  import opened KeycodeReconcile
  import opened KeycodeDone

  /** A reconcile that sends or adopts the code, and whose status write lands. */
  predicate Restarts(w: World, inputs: Inputs, code: string) {
    var history := Reconcile(w, inputs).world.history;
    && inputs.writer.Lands() && !Reconcile(w, inputs).blocked && |w.history| <= |history|
    && exists i :: |w.history| <= i < |history| && (history[i] == Sent(code) || history[i] == Adopted(code, true))
  }

  /** The edit at `e` entered this code and signature, and since then the code was sent or
      adopted only into an empty repository; `strictly`, not at all. */
  predicate EnteredAt(w: World, steps: seq<Step>, e: nat, spec: Spec, strictly: bool) {
    && e < |steps| && steps[e] == Edit(spec)
    && forall m :: e < m < |steps| && steps[m].Act?
                   && Restarts(Run(w, steps[..m]), steps[m].inputs, spec.codeNumber) ==>
         !strictly && Run(w, steps[..m]).codes == []
  }

  /** No step sends a code into an empty repository with a signature beside it. */
  predicate NoEarlySignature(w: World, steps: seq<Step>) {
    forall m :: 0 <= m < |steps| && steps[m].Act? ==>
      var v := Run(w, steps[..m]);
      Restarts(v, steps[m].inputs, v.service.spec.codeNumber) ==> v.codes != [] || v.service.spec.signatureData == ""
  }

  /** The signature is none, or was put there by a registration, or was entered. */
  ghost predicate Accounted(w: World, steps: seq<Step>, svc: Service, strictly: bool) {
    || svc.spec.signatureData == ""
    || (svc.status.state == Done && svc.spec.codeNumber == svc.status.codeNumber)
    || exists e: nat :: EnteredAt(w, steps, e, svc.spec, strictly)
  }

  lemma EnteredStays(w: World, steps: seq<Step>, step: Step, e: nat, spec: Spec, strictly: bool)
    requires EnteredAt(w, steps, e, spec, strictly)
    requires step.Act? && Restarts(Run(w, steps), step.inputs, spec.codeNumber) ==>
               !strictly && Run(w, steps).codes == []
    ensures EnteredAt(w, steps + [step], e, spec, strictly)
  {
    var more := steps + [step];
    assert more[..|steps|] == steps;
    forall m | e < m < |more| && more[m].Act? && Restarts(Run(w, more[..m]), more[m].inputs, spec.codeNumber)
      ensures !strictly && Run(w, more[..m]).codes == []
    {
      if m < |steps| {
        assert more[..m] == steps[..m] && more[m] == steps[m];
      }
    }
  }

  predicate SendsOrAdopts(log: seq<Entry>) {
    exists i :: 0 <= i < |log| && (log[i].Sent? || log[i].Adopted?)
  }

  lemma SendingHandler(s: Store, svc: Service, inputs: Inputs)
    requires s.log == []
    ensures var h := Handle(s, svc, inputs);
            !h.blocked && SendsOrAdopts(h.store.log) ==>
              if s.codes == [] then h.service.spec == svc.spec else h.service.spec.signatureData == ""
  {
    if svc.IsCodeNumberEmpty() {
      DeleteAllLogsOnlyDeletions(s, s.codes, inputs.rpcs.okDeletes, DeletedCode);
    } else {
      DeleteAllLogsOnlyDeletions(s, s.codes, inputs.rpcs.okDeletes, NewCode(svc.spec.codeNumber));
    }
  }

  /** What a reconcile adds to the history. */
  function NewEntries(w: World, inputs: Inputs): seq<Entry> {
    if w.stuck || !inputs.IsOwned() || !GateOpen(w, inputs) then []
    else Handle(Store(w.codes, w.buffer, []), w.service, inputs).store.log
  }

  lemma HistoryGrows(w: World, inputs: Inputs)
    ensures Reconcile(w, inputs).world.history == w.history + NewEntries(w, inputs)
  {
  }

  lemma RestartHandles(w: World, inputs: Inputs, code: string)
    requires Restarts(w, inputs, code)
    ensures var h := Handle(Store(w.codes, w.buffer, []), w.service, inputs);
            && !h.blocked && SendsOrAdopts(h.store.log)
            && Reconcile(w, inputs).world.service.spec == h.service.spec
  {
    HistoryGrows(w, inputs);
    var history := Reconcile(w, inputs).world.history;
    var i :| |w.history| <= i < |history| && (history[i] == Sent(code) || history[i] == Adopted(code, true));
    assert NewEntries(w, inputs)[i - |w.history|] == history[i];
  }

  /** A landed send or adoption leaves a signature behind exactly if it was a send that found
      the repository empty and a signature in the spec. */
  lemma RestartKeepsSignatureIff(w: World, inputs: Inputs, code: string)
    requires Restarts(w, inputs, code)
    ensures Reconcile(w, inputs).world.service.spec.signatureData == ""
       <==> w.codes != [] || w.service.spec.signatureData == ""
  {
    RestartHandles(w, inputs, code);
    SendingHandler(Store(w.codes, w.buffer, []), w.service, inputs);
  }

  /** Whatever a reconcile does, the stored spec stays, or its signature goes, or a
      registration has put one there; and an object done with its own code stays so till then. */
  lemma SpecAfterReconcile(w: World, inputs: Inputs)
    ensures var svc, svc' := w.service, Reconcile(w, inputs).world.service;
            var own := svc'.status.state == Done && svc'.spec.codeNumber == svc'.status.codeNumber;
            && (svc'.spec == svc.spec || svc'.spec.signatureData == "" || own)
            && (svc.status.state == Done && svc.spec.codeNumber == svc.status.codeNumber ==>
                  own || svc'.spec.signatureData == "")
  {
  }

  lemma ActKeepsAccounted(w: World, steps: seq<Step>, inputs: Inputs, strictly: bool)
    requires Accounted(w, steps, Run(w, steps).service, strictly)
    requires var v := Run(w, steps);
             strictly && Restarts(v, inputs, v.service.spec.codeNumber) ==>
               v.codes != [] || v.service.spec.signatureData == ""
    ensures Accounted(w, steps + [Act(inputs)], Reconcile(Run(w, steps), inputs).world.service, strictly)
  {
    var v := Run(w, steps);
    var spec, svc := v.service.spec, Reconcile(v, inputs).world.service;
    SpecAfterReconcile(v, inputs);
    if Restarts(v, inputs, spec.codeNumber) {
      RestartKeepsSignatureIff(v, inputs, spec.codeNumber);
    }
    if svc.spec == spec && svc.spec.signatureData != "" {
      if e: nat :| EnteredAt(w, steps, e, spec, strictly) {
        EnteredStays(w, steps, Act(inputs), e, spec, strictly);
      }
    }
  }

  lemma {:induction false} RunsAreAccounted(w: World, steps: seq<Step>, strictly: bool)
    requires w.service.spec.signatureData == "" && (strictly ==> NoEarlySignature(w, steps))
    ensures Accounted(w, steps, Run(w, steps).service, strictly)
    decreases |steps|
  {
    if steps != [] {
      var n := |steps| - 1;
      var before, step := steps[..n], steps[n];
      assert steps == before + [step];
      assert forall m :: 0 <= m < n ==> before[m] == steps[m] && before[..m] == steps[..m];
      RunsAreAccounted(w, before, strictly);
      match step
      case Edit(spec) => assert EnteredAt(w, steps, n, spec, strictly);
      case Act(inputs) => ActKeepsAccounted(w, before, inputs, strictly);
      case _ =>
        var svc := Run(w, before).service;
        if e: nat :| EnteredAt(w, before, e, svc.spec, strictly) {
          EnteredStays(w, before, step, e, svc.spec, strictly);
        }
    }
  }

  /** A signature taken for a code was entered by the user with that very code, and since then
      the code was sent or adopted, by a reconcile whose write landed, only into an empty
      repository; if no step sends a code there with a signature beside it, not at all. */
  lemma SignaturesAreEntered(w: World, steps: seq<Step>, inputs: Inputs, code: string, signature: string, i: nat)
    requires w.service.spec.signatureData == ""
    requires var v := Run(w, steps);
             var history := Reconcile(v, inputs).world.history;
             |v.history| <= i < |history| && history[i] == SignatureAccepted(code, signature)
    ensures exists e: nat :: EnteredAt(w, steps, e, Spec(code, signature), false)
    ensures NoEarlySignature(w, steps) ==> exists e: nat :: EnteredAt(w, steps, e, Spec(code, signature), true)
  {
    var v := Run(w, steps);
    SignatureIsTheSpecs(v, inputs, code, signature, i);
    RunsAreAccounted(w, steps, false);
    if NoEarlySignature(w, steps) {
      RunsAreAccounted(w, steps, true);
    }
  }

  lemma HandlerSigns(s: Store, svc: Service, inputs: Inputs, code: string, signature: string)
    requires s.log == [] && SignatureAccepted(code, signature) in Handle(s, svc, inputs).store.log
    ensures svc.spec == Spec(code, signature) && signature != ""
    ensures svc.status.state == WaitingSignatureData && svc.status.codeNumber == code
  {
    if svc.IsCodeNumberEmpty() {
      DeleteAllLogsOnlyDeletions(s, s.codes, inputs.rpcs.okDeletes, DeletedCode);
    } else if svc.IsCodeNumberUpdated() || svc.status.state in {Default, WaitingKeycode} {
      HandleKeycodeLog(s, svc, inputs.rpcs, inputs.writer.Lands());
    }
  }

  lemma SignatureIsTheSpecs(w: World, inputs: Inputs, code: string, signature: string, i: nat)
    requires var history := Reconcile(w, inputs).world.history;
             |w.history| <= i < |history| && history[i] == SignatureAccepted(code, signature)
    ensures w.service.spec == Spec(code, signature) && signature != ""
    ensures w.service.status.state == WaitingSignatureData && w.service.status.codeNumber == code
  {
    HistoryGrows(w, inputs);
    assert NewEntries(w, inputs)[i - |w.history|] == SignatureAccepted(code, signature);
    HandlerSigns(Store(w.codes, w.buffer, []), w.service, inputs, code, signature);
  }

  /** The exception happens: a signature entered together with its code is sent for it, though
      no edit followed the sending of the code. */
  lemma EarlySignatureIsSent(w: World, send: Inputs, poll: Inputs, sign: Inputs)
    requires Fresh(w) && w.codes == [] && w.service.status == EMPTY_STATUS
    requires send.IsOwned() && send.repositoryOk && send.rpcs.listOk && send.rpcs.sendOk && send.writer.Lands()
    requires poll.IsOwned() && poll.repositoryOk && poll.rpcs.registration.Some? && poll.rpcs.detail == Some(false)
    requires poll.writer.Lands() && !poll.writer.ForcesRequeue() && poll.now - send.endTime <= RETRY_LIMIT
    requires sign.IsOwned() && sign.repositoryOk && sign.rpcs.signatureOk
    ensures var v := Take(Take(Take(Take(w, Edit(Spec("A", "x"))), Act(send)), Act(poll)), Act(sign));
            v.history == [Sent("A"), SignatureAccepted("A", "x")]
  {
    var w1 := Take(w, Edit(Spec("A", "x")));
    SendingKeepsSignature(w1, send);
    var w2 := Take(w1, Act(send));
    HistoryGrows(w2, poll);
    var w3 := Take(w2, Act(poll));
    HistoryGrows(w3, sign);
  }

  lemma SendingKeepsSignature(w: World, send: Inputs)
    requires w.service.spec == Spec("A", "x") && w.service.status == EMPTY_STATUS
    requires w.codes == [] && w.history == [] && w.buffer == [] && w.firstRetryTime == None && !w.stuck
    requires send.IsOwned() && send.repositoryOk && send.rpcs.listOk && send.rpcs.sendOk && send.writer.Lands()
    ensures var v := Take(w, Act(send));
            && v.history == [Sent("A")] && !v.stuck && v.firstRetryTime == Some(send.endTime)
            && v.service.spec == Spec("A", "x") && v.service.status.codeNumber == "A"
            && v.service.status.state == PollingRegistrationData
  {
    HistoryGrows(w, send);
  }
}
