/** What a reconcile of the keycode leaves, branch by branch and in so many words: on success,
    on each failure, and in the stored object. */
module KeycodeOutcomes {
  import opened Options
  import opened KeycodeTypes
  import opened KeycodeHandlers
  import opened KeycodeReconcile

  // --------------------------------------------------------------- the special keycode

  lemma {:induction false} DashAnywhere(a: string, b: string)
    ensures StripDashes(a + "-" + b) == StripDashes(a + b)
  {
    if a == "" {
      assert ("" + "-" + b)[1..] == b && a + b == b;
    } else {
      assert (a + "-" + b)[1..] == a[1..] + "-" + b && (a + b)[1..] == a[1..] + b;
      DashAnywhere(a[1..], b);
    }
  }

  lemma {:induction false} NoDashNoChange(s: string)
    requires '-' !in s
    ensures StripDashes(s) == s
  {
    if s != "" {
      assert s[0] in s;
      assert forall c :: c in s[1..] ==> c in s;
      NoDashNoChange(s[1..]);
    }
  }

  /** The special keycode is one code, however it is hyphenated. */
  lemma SpecialUpToDashes(a: string, b: string, s: string)
    requires '-' !in s
    ensures IsSpecial(a + "-" + b) <==> IsSpecial(a + b)
    ensures IsSpecial(s) <==> s == SPECIAL_KEYCODE
  {
    DashAnywhere(a, b);
    NoDashNoChange(s);
  }

  lemma SpecialIsNotEmpty(code: string)
    requires IsSpecial(code)
    ensures code != ""
  {
  }

  // ------------------------------------------------------------------------- failures

  predicate Applies(svc: Service) {
    svc.spec.codeNumber != ""
    && (svc.spec.codeNumber != svc.status.codeNumber || svc.status.state in {Default, WaitingKeycode})
  }

  /** The old codes are gone and the new one did not get through. */
  predicate SendFailsAfterDeleting(codes: seq<string>, svc: Service, inputs: Inputs) {
    var r := inputs.rpcs;
    && inputs.repositoryOk && Applies(svc) && r.listOk && codes != [] && !IsSpecial(svc.spec.codeNumber)
    && r.okDeletes >= NonBlankCount(codes) && !r.sendOk
  }

  predicate ApplyingFails(codes: seq<string>, code: string, r: Rpcs) {
    || !r.listOk
    || (codes == [] && !r.sendOk)
    || (codes != [] && !IsSpecial(code) && (r.okDeletes < NonBlankCount(codes) || !r.sendOk))
  }

  /** The step that fails, told by the calls it needs. */
  function FailedStep(codes: seq<string>, svc: Service, inputs: Inputs): ErrorMessage {
    var r, code := inputs.rpcs, svc.spec.codeNumber;
    if !inputs.repositoryOk then GetRepositoryFailed
    else if code == "" then
      if svc.status.codeNumber != "" && (!r.listOk || r.okDeletes < NonBlankCount(codes)) then HandleEmptyFailed
      else NoError
    else if Applies(svc) then
      if !ApplyingFails(codes, code, r) then NoError
      else if code != svc.status.codeNumber then UpdateKeycodeFailed else HandleKeycodeFailed
    else if svc.status.state == PollingRegistrationData && (r.registration == None || r.detail == None) then PollFailed
    else if svc.status.state == WaitingSignatureData && svc.spec.signatureData != "" && !r.signatureOk then
      HandleSignatureFailed
    else NoError
  }

  lemma ReplacingDeletes(s: Store, svc: Service, r: Rpcs, persisted: bool)
    requires s.buffer == [] && s.codes != [] && r.listOk && !IsSpecial(svc.spec.codeNumber)
    ensures var h := HandleKeycode(s, svc, r, persisted);
            h.outcome != Blocked ==>
              if r.okDeletes < NonBlankCount(s.codes) then
                h.outcome == Failed && h.service == svc && Blank(h.store.codes) == Blank(s.codes)
                && forall c :: c in h.store.codes ==> c in s.codes
              else
                var kept := svc.(spec := Spec(svc.spec.codeNumber, ""));
                if r.sendOk then
                  h.outcome == Finished && h.store.codes == Blank(s.codes) + [svc.spec.codeNumber]
                  && h.service
                     == kept.(status := Status(svc.spec.codeNumber, "", PollingRegistrationData, NoError, ""))
                else
                  h.outcome == Failed && h.store.codes == Blank(s.codes)
                  && h.service == kept.(status := Status("", "", WaitingKeycode, NoError, ""))
  {
    DeleteAllEffect(s, s.codes, r.okDeletes, NewCode(svc.spec.codeNumber));
    DeletingEverythingLeavesBlank(s.codes);
  }

  lemma EmptyingDeletes(s: Store, svc: Service, r: Rpcs)
    requires s.buffer == [] && svc.spec.codeNumber == "" && svc.status.codeNumber != "" && r.listOk
    ensures var (s1, end) := HandleEmptyKeycode(s, svc, r);
            end != Blocked ==>
              if r.okDeletes < NonBlankCount(s.codes) then
                end == Failed && Blank(s1.codes) == Blank(s.codes) && forall c :: c in s1.codes ==> c in s.codes
              else end == Finished && s1.codes == Blank(s.codes)
  {
    DeleteAllEffect(s, s.codes, r.okDeletes, DeletedCode);
    DeletingEverythingLeavesBlank(s.codes);
  }

  /** A failure asks for a retry and changes nothing in the object but the last error, which
      names the step; only if the send fails after the old codes were deleted, registration
      and signature start over as well. No code is added. */
  lemma FailureNamesTheStep(s: Store, svc: Service, inputs: Inputs)
    requires s.buffer == [] && FailedStep(s.codes, svc, inputs) != NoError
    ensures var h, step := Handle(s, svc, inputs), FailedStep(s.codes, svc, inputs);
            !h.blocked ==>
              && h.requeue
              && (forall c :: c in h.store.codes ==> c in s.codes) && Blank(h.store.codes) == Blank(s.codes)
              && h.service == if SendFailsAfterDeleting(s.codes, svc, inputs)
                              then svc.(spec := Spec(svc.spec.codeNumber, ""),
                                        status := Status("", "", WaitingKeycode, step, ""))
                              else svc.(status := svc.status.(lastErrorMessage := step))
  {
    if inputs.repositoryOk && inputs.rpcs.listOk {
      if svc.spec.codeNumber == "" {
        EmptyingDeletes(s, svc, inputs.rpcs);
      } else if s.codes != [] && Applies(svc) && !IsSpecial(svc.spec.codeNumber) {
        ReplacingDeletes(s, svc, inputs.rpcs, inputs.writer.Lands());
        BlankIsBlank(s.codes);
      }
    }
  }

  lemma {:induction false} BlankIsBlank(codes: seq<string>)
    ensures Blank(Blank(codes)) == Blank(codes)
    ensures forall c :: c in Blank(codes) ==> c in codes
  {
    if codes != [] {
      BlankIsBlank(codes[1..]);
      assert codes == [codes[0]] + codes[1..];
      if codes[0] == "" {
        assert Blank(codes)[1..] == Blank(codes[1..]);
      }
    }
  }

  // -------------------------------------------------------------------------- success

  /** Applying a code: sent where nothing is stored, with whatever signature and error are
      there; adopted for the special one; else replacing what is stored, signature and all. */
  lemma ApplyingSucceeds(s: Store, svc: Service, inputs: Inputs)
    requires s.buffer == [] && Applies(svc) && FailedStep(s.codes, svc, inputs) == NoError
    ensures var h, code := Handle(s, svc, inputs), svc.spec.codeNumber;
            !h.blocked ==>
              && h.requeue
              && if s.codes == [] then
                   h.store.codes == [code]
                   && h.service == svc.(status := svc.status.(codeNumber := code, state := PollingRegistrationData))
                 else if IsSpecial(code) then
                   h.store.codes == s.codes
                   && h.service == svc.(spec := Spec(s.codes[0], ""),
                                        status := Status(s.codes[0], "", PollingRegistrationData, NoError, ""))
                 else
                   h.store.codes == Blank(s.codes) + [code]
                   && h.service == svc.(spec := Spec(code, ""),
                                        status := Status(code, "", PollingRegistrationData, NoError, ""))
  {
    if s.codes != [] && !IsSpecial(svc.spec.codeNumber) {
      ReplacingDeletes(s, svc, inputs.rpcs, inputs.writer.Lands());
    }
  }

  /** Emptying: listed codes are deleted if the status names one; spec and status start over
      either way. */
  lemma EmptyingSucceeds(s: Store, svc: Service, inputs: Inputs)
    requires s.buffer == [] && svc.spec.codeNumber == "" && FailedStep(s.codes, svc, inputs) == NoError
    ensures var h := Handle(s, svc, inputs);
            !h.blocked ==>
              && !h.requeue && h.store.codes == (if svc.status.codeNumber != "" then Blank(s.codes) else s.codes)
              && h.service == svc.(spec := Spec("", ""), status := Status("", "", WaitingKeycode, NoError, ""))
  {
    if svc.status.codeNumber != "" {
      EmptyingDeletes(s, svc, inputs.rpcs);
    }
  }

  /** With its code applied, an object moves on by registration data or signature, and in any
      other case stays exactly as it is. */
  lemma AppliedMovesOn(s: Store, svc: Service, inputs: Inputs)
    requires svc.spec.codeNumber != "" && !Applies(svc) && FailedStep(s.codes, svc, inputs) == NoError
    ensures var h, code := Handle(s, svc, inputs), svc.spec.codeNumber;
            && !h.blocked && !h.requeue && h.store.codes == s.codes
            && h.service ==
               if svc.status.state == PollingRegistrationData then
                 var data := inputs.rpcs.registration.value;
                 if inputs.rpcs.detail.value
                 then svc.(spec := Spec(code, data), status := Status(code, "", Done, NoError, ""))
                 else svc.(status := Status(code, data, WaitingSignatureData, NoError, ""))
               else if svc.status.state == WaitingSignatureData && svc.spec.signatureData != "" then
                 svc.(status := svc.status.(state := Done, lastErrorMessage := NoError))
               else svc
  {
  }

  // -------------------------------------------------------------------- the stored object

  /** The stored object is the handled one, or the one read if the retry gate was shut, with
      the summary of the repository's detail: kept if the repository is out of reach, "{}" if
      the detail is. It is the old one unless the writer finds the object and updates it. */
  lemma StoredObject(w: World, inputs: Inputs)
    requires inputs.get == Found && inputs.lock == Owned && !Reconcile(w, inputs).blocked
    ensures var wr := inputs.writer;
            var late := w.firstRetryTime.Some? && inputs.now - w.firstRetryTime.value > 1_800_000_000_000;
            var svc := if late then w.service
                       else Handle(Store(w.codes, w.buffer, []), w.service, inputs).service;
            Reconcile(w, inputs).world.service ==
              if wr.get != Found || !wr.updateOk then w.service
              else
                var summary := if !wr.repositoryOk then svc.status.summary
                               else if wr.summary == None then "{}" else wr.summary.value;
                w.service.(spec := svc.spec, status := svc.status.(summary := summary))
  {
  }

  /** Without the object or the lock nothing happens; a retry is asked for exactly if the call
      itself failed. */
  lemma UnownedDoesNothing(w: World, inputs: Inputs)
    requires !(inputs.get == Found && inputs.lock == Owned) && !w.stuck
    ensures var r := Reconcile(w, inputs);
            r.world == w && r.submitted == None && !r.blocked
            && (r.returned <==> inputs.get == GetFailed || (inputs.get == Found && inputs.lock == LockFailed))
  {
  }
}
