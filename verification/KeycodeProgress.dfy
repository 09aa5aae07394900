/** Bounded progress: with the keycode section left alone and no failures, a ranking falls
    with every reconcile that passes the retry gate until nothing is left to do. */
module KeycodeProgress {
  import opened Options
  import opened KeycodeTypes
  import opened KeycodeHandlers
  import opened KeycodeReconcile

  /** Every call of this reconcile succeeds; the repository may still answer that the code
      is not registered, and the clock may say anything. */
  predicate Clean(inputs: Inputs) {
    && inputs.IsOwned() && inputs.repositoryOk
    && inputs.rpcs.listOk && inputs.rpcs.okDeletes >= CHANNEL_CAPACITY && inputs.rpcs.sendOk
    && inputs.rpcs.registration.Some? && inputs.rpcs.detail.Some? && inputs.rpcs.signatureOk
    && inputs.writer.Lands() && !inputs.writer.ForcesRequeue()
  }

  /** Steps still ahead of an object with a non-empty code. */
  function Rank(svc: Service): nat {
    if svc.IsCodeNumberUpdated() then 3
    else match svc.status.state
      case Default => 3
      case WaitingKeycode => 3
      case PollingRegistrationData => 2
      case WaitingSignatureData => if svc.spec.signatureData == "" then 0 else 1
      case Done => 0
      case Unknown(_) => 0
  }

  /** The license is Done, or waits for a signature only the user can give. */
  predicate Settled(svc: Service) {
    && !svc.IsCodeNumberUpdated()
    && (svc.status.state == Done || (svc.status.state == WaitingSignatureData && svc.spec.signatureData == ""))
  }

  /** The switch in Reconcile does not know the state, so nothing will ever happen. */
  predicate Stranded(svc: Service) {
    !svc.IsCodeNumberUpdated() && svc.status.state.Unknown?
  }

  predicate Ready(w: World) {
    && !w.stuck && w.buffer == [] && !w.service.IsCodeNumberEmpty()
    && (Rank(w.service) == 3 ==>
          && |w.codes| < CHANNEL_CAPACITY
          && (IsSpecial(w.service.spec.codeNumber) && w.codes != [] ==> w.codes[0] != ""))
  }

  lemma CleanHandleKeycode(s: Store, svc: Service, r: Rpcs, persisted: bool)
    requires |s.codes| < CHANNEL_CAPACITY && s.buffer == [] && svc.spec.codeNumber != ""
    requires r.listOk && r.okDeletes >= CHANNEL_CAPACITY && r.sendOk
    requires IsSpecial(svc.spec.codeNumber) && s.codes != [] ==> s.codes[0] != ""
    ensures var h := HandleKeycode(s, svc, r, persisted);
            && h.outcome == Finished
            && h.service.status.codeNumber == h.service.spec.codeNumber != ""
            && h.service.status.state == PollingRegistrationData
  {
    var blame := NewCode(svc.spec.codeNumber);
    DeleteAllEffect(s, s.codes, r.okDeletes, blame);
  }

  /** One clean reconcile: if the gate is open the rank falls, or it was zero and the license
      does not move; if the gate is closed nothing moves and the next gate is open. */
  lemma CleanReconcile(w: World, inputs: Inputs)
    requires Ready(w) && Clean(inputs)
    ensures var v := Reconcile(w, inputs).world;
            && Ready(v)
            && (GateOpen(w, inputs) && Rank(w.service) > 0 ==> Rank(v.service) < Rank(w.service))
            && (!GateOpen(w, inputs) || Rank(w.service) == 0 ==>
                  && Rank(v.service) == Rank(w.service) && v.codes == w.codes
                  && v.service.spec == w.service.spec
                  && v.service.status.codeNumber == w.service.status.codeNumber
                  && v.service.status.state == w.service.status.state)
            && (!GateOpen(w, inputs) ==> v.firstRetryTime == None)
            && (Stranded(v.service) <==> Stranded(w.service))
  {
    if GateOpen(w, inputs) && Rank(w.service) == 3 {
      CleanHandleKeycode(Store(w.codes, w.buffer, []), w.service, inputs.rpcs, inputs.writer.Lands());
    }
  }

  // ------------------------------------------------------------------------- runs

  function Serve(w: World, ins: seq<Inputs>): World
    decreases |ins|
  {
    if ins == [] then w else Serve(Reconcile(w, ins[0]).world, ins[1..])
  }

  /** How many of these reconciles pass the retry gate. */
  function Passes(w: World, ins: seq<Inputs>): nat
    decreases |ins|
  {
    if ins == [] then 0
    else (if GateOpen(w, ins[0]) then 1 else 0) + Passes(Reconcile(w, ins[0]).world, ins[1..])
  }

  lemma {:induction false} ServingLowersRank(w: World, ins: seq<Inputs>)
    requires Ready(w) && forall inputs :: inputs in ins ==> Clean(inputs)
    ensures var v := Serve(w, ins);
            && Ready(v)
            && Rank(v.service) + Passes(w, ins)
               <= (if Passes(w, ins) > Rank(w.service) then Passes(w, ins) else Rank(w.service))
            && (Stranded(v.service) <==> Stranded(w.service))
    decreases |ins|
  {
    if ins != [] {
      assert ins[0] in ins;
      assert forall inputs :: inputs in ins[1..] ==> inputs in ins;
      CleanReconcile(w, ins[0]);
      ServingLowersRank(Reconcile(w, ins[0]).world, ins[1..]);
    }
  }

  /** The gate never shuts out two clean reconciles in a row. */
  lemma {:induction false} HalfPassTheGate(w: World, ins: seq<Inputs>)
    requires Ready(w) && forall inputs :: inputs in ins ==> Clean(inputs)
    ensures 2 * Passes(w, ins) + 1 >= |ins|
    ensures ins != [] && GateOpen(w, ins[0]) ==> 2 * Passes(w, ins) >= |ins|
    decreases |ins|
  {
    if ins != [] {
      assert ins[0] in ins;
      assert forall inputs :: inputs in ins[1..] ==> inputs in ins;
      CleanReconcile(w, ins[0]);
      HalfPassTheGate(Reconcile(w, ins[0]).world, ins[1..]);
    }
  }

  /** A non-empty code settles after three clean reconciles that pass the retry gate, and
      after any six whatever the clock says, exactly when its state is one the controller
      knows or its code is still to be applied. */
  lemma SettlesIff(w: World, ins: seq<Inputs>)
    requires Ready(w) && forall inputs :: inputs in ins ==> Clean(inputs)
    requires Passes(w, ins) >= 3 || |ins| >= 6
    ensures Settled(Serve(w, ins).service) <==> !Stranded(w.service)
  {
    HalfPassTheGate(w, ins);
    ServingLowersRank(w, ins);
  }
}
