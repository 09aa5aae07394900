/** The documented state flow: which state changes a reconcile can make at all, what each of
    them writes, and the whole cycle from entering a keycode to deleting it again. */
module KeycodeFlow {
  import opened Options
  import opened KeycodeTypes
  import opened KeycodeHandlers
  import opened KeycodeReconcile
  import opened KeycodeConsistency

  /** The arrows of the flow: from the object a reconcile reads to the state it stores. */
  predicate Arrow(svc: Service, state: State) {
    match state
    case Default => false
    case WaitingKeycode => svc.IsCodeNumberEmpty() || svc.IsCodeNumberUpdated() || svc.status.state == Default
    case PollingRegistrationData =>
      !svc.IsCodeNumberEmpty() && (svc.IsCodeNumberUpdated() || Waiting(svc.status.state))
    case WaitingSignatureData =>
      !svc.IsCodeNumberEmpty() && !svc.IsCodeNumberUpdated() && svc.status.state == PollingRegistrationData
    case Done =>
      !svc.IsCodeNumberEmpty() && !svc.IsCodeNumberUpdated()
      && svc.status.state in {PollingRegistrationData, WaitingSignatureData}
    case Unknown(_) => false
  }

  /** Whatever fails, the stored state stays or follows an arrow, and it stays if the write
      is lost. */
  lemma StateFollowsTheArrows(w: World, inputs: Inputs)
    ensures var state := Reconcile(w, inputs).world.service.status.state;
            state == w.service.status.state || (Arrow(w.service, state) && inputs.writer.Lands())
  {
  }

  /** This reconcile reaches the handlers, and its write lands with every call of it. */
  predicate Served(w: World, inputs: Inputs) {
    && !w.stuck && inputs.IsOwned() && GateOpen(w, inputs) && inputs.repositoryOk
    && inputs.writer.Lands() && !inputs.writer.ForcesRequeue()
  }

  /** Polling: a code that is already registered has its registration data put into the spec's
      signature and is Done at once; any other has it put into the status and waits. */
  lemma PollingLeadsOn(w: World, inputs: Inputs)
    requires Served(w, inputs) && !w.service.IsCodeNumberEmpty() && !w.service.IsCodeNumberUpdated()
    requires w.service.status.state == PollingRegistrationData
    requires inputs.rpcs.registration.Some? && inputs.rpcs.detail.Some?
    ensures var code, data := w.service.spec.codeNumber, inputs.rpcs.registration.value;
            var summary := inputs.writer.summary.value;
            var v := Reconcile(w, inputs).world;
            && v.codes == w.codes && v.firstRetryTime == None
            && v.service == w.service.(
                 spec := if inputs.rpcs.detail.value then Spec(code, data) else w.service.spec,
                 status := if inputs.rpcs.detail.value then Status(code, "", Done, NoError, summary)
                           else Status(code, data, WaitingSignatureData, NoError, summary))
  {
  }

  /** A signature that is accepted makes the waiting code Done and clears the last error. */
  lemma SignatureLeadsToDone(w: World, inputs: Inputs)
    requires Served(w, inputs) && !w.service.IsCodeNumberEmpty() && !w.service.IsCodeNumberUpdated()
    requires w.service.status.state == WaitingSignatureData && w.service.spec.signatureData != ""
      && inputs.rpcs.signatureOk
    ensures var v := Reconcile(w, inputs).world;
            && v.codes == w.codes && v.firstRetryTime == None
            && v.service == w.service.(
                 status := w.service.status.(
                   state := Done, lastErrorMessage := NoError, summary := inputs.writer.summary.value))
  {
  }

  /** A new code, where nothing is stored, is sent and polled for. */
  lemma SendingLeadsToPolling(w: World, inputs: Inputs)
    requires Served(w, inputs) && w.service.IsCodeNumberUpdated() && !w.service.IsCodeNumberEmpty()
    requires w.codes == [] && w.buffer == [] && inputs.rpcs.listOk && inputs.rpcs.sendOk
    ensures var v := Reconcile(w, inputs).world;
            && v.codes == [w.service.spec.codeNumber] && v.buffer == [] && !v.stuck
            && v.firstRetryTime == Some(if w.firstRetryTime == None then inputs.endTime else w.firstRetryTime.value)
            && v.service.spec == w.service.spec
            && v.service.status.codeNumber == w.service.spec.codeNumber
            && v.service.status.state == PollingRegistrationData
  {
  }

  /** An emptied keycode: every listed code is deleted, whatever state it was in, and spec and
      status start over. */
  lemma EmptyingStartsOver(w: World, inputs: Inputs)
    requires Served(w, inputs) && w.service.IsCodeNumberEmpty() && w.service.IsCodeNumberUpdated()
    requires w.buffer == [] && inputs.rpcs.listOk
    requires NonBlankCount(w.codes) <= CHANNEL_CAPACITY && inputs.rpcs.okDeletes >= NonBlankCount(w.codes)
    ensures var v := Reconcile(w, inputs).world;
            && v.codes == Blank(w.codes) && v.firstRetryTime == None
            && v.service == w.service.(
                 spec := Spec("", ""), status := Status("", "", WaitingKeycode, NoError, inputs.writer.summary.value))
  {
    DeleteAllEffect(Store(w.codes, [], []), w.codes, inputs.rpcs.okDeletes, DeletedCode);
    DeletingEverythingLeavesBlank(w.codes);
  }

  // --------------------------------------------------------------- the normal cycle

  function Enter(w: World, spec: Spec, inputs: Inputs): World {
    Reconcile(w.(service := w.service.(spec := spec)), inputs).world
  }

  /** The inputs of an undisturbed reconcile within the retry limit of `since`. */
  predicate Smooth(inputs: Inputs, since: Option<int>) {
    && inputs.IsOwned() && inputs.repositoryOk && inputs.writer.Lands() && !inputs.writer.ForcesRequeue()
    && inputs.rpcs.listOk && inputs.rpcs.sendOk && inputs.rpcs.okDeletes >= 1 && inputs.rpcs.signatureOk
    && inputs.rpcs.registration.Some? && inputs.rpcs.detail == Some(false)
    && (since.Some? ==> inputs.now - since.value <= RETRY_LIMIT)
  }

  /** The cycle of the documentation, for any code and signature: entered, the code is stored
      and polled for; its registration data arrives; signed, it is Done; deleted, the
      repository is empty again and the controller waits for a keycode. */
  lemma NormalCycle(w: World, code: string, signature: string, send: Inputs, poll: Inputs, sign: Inputs, delete: Inputs)
    requires Fresh(w) && w.codes == [] && w.service.status == EMPTY_STATUS && code != "" && signature != ""
    requires Smooth(send, None) && Smooth(poll, Some(send.endTime)) && Smooth(sign, None) && Smooth(delete, None)
    ensures var w1 := Enter(w, Spec(code, ""), send);
            var w2 := Reconcile(w1, poll).world;
            var w3 := Enter(w2, Spec(code, signature), sign);
            var w4 := Enter(w3, Spec("", ""), delete);
            && w1.codes == [code] && w1.service.status.state == PollingRegistrationData
            && w2.codes == [code] && w2.service.status.state == WaitingSignatureData
            && w2.service.status.registrationData == poll.rpcs.registration.value
            && w3.codes == [code] && w3.service.status.state == Done
            && w4.codes == [] && w4.service.spec == Spec("", "") && w4.service.status.state == WaitingKeycode
            && w4.service.status.codeNumber == "" && w4.service.status.registrationData == ""
  {
    SendingLeadsToPolling(w.(service := w.service.(spec := Spec(code, ""))), send);
    var w1 := Enter(w, Spec(code, ""), send);
    PollingLeadsOn(w1, poll);
    var w2 := Reconcile(w1, poll).world;
    SignatureLeadsToDone(w2.(service := w2.service.(spec := Spec(code, signature))), sign);
    var w3 := Enter(w2, Spec(code, signature), sign);
    assert !w3.stuck && w3.buffer == [] && w3.codes == [code];
    EmptyingStartsOver(w3.(service := w3.service.(spec := Spec("", ""))), delete);
  }
}
