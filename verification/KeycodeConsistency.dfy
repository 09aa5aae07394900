/** The stored status tells the truth about the repository, in every run whose status
    writes land, and what an interrupted update leaves is repaired by one clean attempt. */
module KeycodeConsistency {
  import opened KeycodeTypes
  import opened KeycodeHandlers
  import opened KeycodeReconcile

  function CodesOf(status: Status): seq<string> {
    if status.codeNumber == "" then [] else [status.codeNumber]
  }

  predicate Waiting(state: State) {
    state == Default || state == WaitingKeycode
  }

  /** The repository holds exactly the code the status names, and the status is in a
      waiting state exactly when it names none. */
  predicate StatusMatches(codes: seq<string>, status: Status) {
    && codes == CodesOf(status)
    && (Waiting(status.state) <==> status.codeNumber == "")
  }

  predicate Consistent(w: World) {
    StatusMatches(w.codes, w.service.status) && w.buffer == [] && !w.stuck
  }

  /** Spec edits, deletion marks, restarts, and reconciles whose status write lands. */
  predicate WritesLand(steps: seq<Step>) {
    forall i :: 0 <= i < |steps| && steps[i].Act? ==> steps[i].inputs.writer.Lands()
  }

  /** With at most one code stored, the deletion loop either deletes it or changes nothing. */
  lemma DeletingAtMostOne(s: Store, ok: nat, blame: Blame)
    requires |s.codes| <= 1 && "" !in s.codes && s.buffer == [] && s.log == []
    ensures var (s1, end) := DeleteAll(s, s.codes, ok, blame);
            && end != Blocked && |s1.buffer| <= 1
            && (end == Finished ==> s1.codes == [])
            && (end == Failed ==> s1.codes == s.codes && s1.log == [])
            && (end == Finished && s.codes != [] ==> s1.log == [Deleted(s.codes[0])])
            && (end == Finished && s.codes == [] ==> s1.log == [])
  {
  }

  /** Nothing in this stretch of the log deleted or sent a code. */
  predicate Untouched(log: seq<Entry>) {
    forall i :: 0 <= i < |log| ==> !log[i].Deleted? && !log[i].Sent?
  }

  /** What a handler guarantees when it starts from a true status and an empty channel. */
  predicate KeepsTrue(s: Store, svc: Service, s1: Store, svc1: Service) {
    && StatusMatches(s1.codes, svc1.status)
    && |s1.buffer| <= 2
    && svc1.deleting == svc.deleting
    && (s1.codes == s.codes <==> Untouched(s1.log))
  }

  lemma HandleKeycodeKeepsTrue(s: Store, svc: Service, r: Rpcs, persisted: bool)
    requires StatusMatches(s.codes, svc.status) && s.buffer == [] && s.log == []
    requires svc.spec.codeNumber != ""
    requires svc.IsCodeNumberUpdated() || Waiting(svc.status.state)
    ensures var h := HandleKeycode(s, svc, r, persisted);
            h.outcome != Blocked && KeepsTrue(s, svc, h.store, h.service)
  {
    var h := HandleKeycode(s, svc, r, persisted);
    if r.listOk {
      if s.codes == [] {
        assert r.sendOk ==> h.store.log[0] == Sent(svc.spec.codeNumber);
      } else if !IsSpecial(svc.spec.codeNumber) {
        DeletingAtMostOne(s, r.okDeletes, NewCode(svc.spec.codeNumber));
        var (s1, end) := DeleteAll(s, s.codes, r.okDeletes, NewCode(svc.spec.codeNumber));
        if end == Finished {
          assert h.store.log[0] == Deleted(s.codes[0]);
        }
      }
    }
  }

  lemma HandleEmptyKeepsTrue(s: Store, svc: Service, r: Rpcs)
    requires StatusMatches(s.codes, svc.status) && s.buffer == [] && s.log == []
    requires svc.IsCodeNumberEmpty()
    ensures var h := HandleEmpty(s, svc, r);
            !h.blocked && KeepsTrue(s, svc, h.store, h.service)
  {
    DeletingAtMostOne(s, r.okDeletes, DeletedCode);
    var (s1, end) := HandleEmptyKeycode(s, svc, r);
    if svc.IsCodeNumberUpdated() && end == Finished {
      assert s1.log[0] == Deleted(s.codes[0]);
    }
  }

  /** Whatever fails, the in-memory status a handler ends with matches the repository it
      leaves behind, and no handler blocks. */
  lemma HandlersKeepStatusTrue(s: Store, svc: Service, inputs: Inputs)
    requires StatusMatches(s.codes, svc.status) && s.buffer == [] && s.log == []
    ensures var h := Handle(s, svc, inputs);
            !h.blocked && KeepsTrue(s, svc, h.store, h.service)
  {
    if inputs.repositoryOk {
      if svc.IsCodeNumberEmpty() {
        HandleEmptyKeepsTrue(s, svc, inputs.rpcs);
      } else if svc.IsCodeNumberUpdated() || Waiting(svc.status.state) {
        HandleKeycodeKeepsTrue(s, svc, inputs.rpcs, inputs.writer.Lands());
      }
    }
  }

  lemma ReconcileKeepsConsistent(w: World, inputs: Inputs)
    requires Consistent(w) && inputs.writer.Lands()
    ensures Consistent(Reconcile(w, inputs).world)
  {
    if inputs.IsOwned() && GateOpen(w, inputs) {
      HandlersKeepStatusTrue(Store(w.codes, w.buffer, []), w.service, inputs);
    }
  }

  /** Safety over whole runs. */
  lemma {:induction false} RunsStayConsistent(w: World, steps: seq<Step>)
    requires Consistent(w) && WritesLand(steps)
    ensures Consistent(Run(w, steps))
    decreases |steps|
  {
    if steps != [] {
      var n := |steps| - 1;
      RunsStayConsistent(w, steps[..n]);
      if steps[n].Act? {
        ReconcileKeepsConsistent(Run(w, steps[..n]), steps[n].inputs);
      }
    }
  }

  /** From an empty repository and status: at every point of every run the stored codes
      are exactly the status's code, or none when it is empty. */
  lemma RepositoryHoldsExactlyTheStatusCode(w: World, steps: seq<Step>, k: nat)
    requires Fresh(w) && w.codes == [] && w.service.status == EMPTY_STATUS
    requires WritesLand(steps) && k <= |steps|
    ensures var v := Run(w, steps[..k]);
            && v.codes == CodesOf(v.service.status)
            && (Waiting(v.service.status.state) <==> v.service.status.codeNumber == "")
            && !v.stuck
  {
    RunsStayConsistent(w, steps[..k]);
  }

  /** The deletion loop of an emptied keycode is reached with a code to delete, or a keycode
      is replaced or sent: the calls that come first succeed. */
  predicate TouchesRepository(w: World, inputs: Inputs) {
    var svc, r := w.service, inputs.rpcs;
    && inputs.IsOwned() && GateOpen(w, inputs) && inputs.repositoryOk && r.listOk
    && if svc.IsCodeNumberEmpty() then svc.IsCodeNumberUpdated() && r.okDeletes > 0
       else && (svc.IsCodeNumberUpdated() || Waiting(svc.status.state))
            && if w.codes == [] then r.sendOk else !IsSpecial(svc.spec.codeNumber) && r.okDeletes > 0
  }

  /** When a status write is lost, the stored status stops telling the truth exactly if the
      reconcile gets as far as a first successful deletion or, with nothing stored, the send. */
  lemma LostWriteBreaksConsistencyIff(w: World, inputs: Inputs)
    requires Consistent(w) && !inputs.writer.Lands()
    ensures !Consistent(Reconcile(w, inputs).world) <==> TouchesRepository(w, inputs)
  {
    var s := Store(w.codes, w.buffer, []);
    HandlersKeepStatusTrue(s, w.service, inputs);
    if w.service.IsCodeNumberEmpty() {
      DeletingAtMostOne(s, inputs.rpcs.okDeletes, DeletedCode);
    } else {
      if w.service.IsCodeNumberUpdated() || Waiting(w.service.status.state) {
        SendingTouchesIff(s, w.service, inputs.rpcs, inputs.writer.Lands());
      }
    }
  }

  lemma SendingTouchesIff(s: Store, svc: Service, r: Rpcs, persisted: bool)
    requires StatusMatches(s.codes, svc.status) && s.buffer == [] && s.log == [] && svc.spec.codeNumber != ""
    requires svc.IsCodeNumberUpdated() || Waiting(svc.status.state)
    ensures HandleKeycode(s, svc, r, persisted).store.codes != s.codes
       <==> r.listOk && if s.codes == [] then r.sendOk else !IsSpecial(svc.spec.codeNumber) && r.okDeletes > 0
  {
    DeletingAtMostOne(s, r.okDeletes, NewCode(svc.spec.codeNumber));
  }

  /** A concrete run whose first reconcile sends the code and then loses its write. */
  lemma LostWriteBreaksTheMatch(w: World, inputs: Inputs)
    requires Fresh(w) && w.codes == [] && w.service.status == EMPTY_STATUS
    requires inputs.IsOwned() && inputs.repositoryOk && inputs.rpcs.listOk && inputs.rpcs.sendOk
      && !inputs.writer.Lands()
    ensures var v := Run(w, [Edit(Spec("A", "")), Act(inputs)]);
            v.codes == ["A"] && v.service.status.codeNumber == ""
  {
    var steps := [Edit(Spec("A", "")), Act(inputs)];
    assert steps[..1] == [Edit(Spec("A", ""))];
    assert Run(w, steps[..1]) == Take(w, steps[0]);
  }

  /** Whatever is lost, a repository that starts with at most one code never holds two,
      and no worker ever blocks. */
  lemma {:induction false} NeverTwoCodes(w: World, steps: seq<Step>)
    requires |w.codes| <= 1 && "" !in w.codes && w.buffer == [] && !w.stuck
    ensures var v := Run(w, steps);
            |v.codes| <= 1 && "" !in v.codes && v.buffer == [] && !v.stuck
    decreases |steps|
  {
    if steps != [] {
      var n := |steps| - 1;
      NeverTwoCodes(w, steps[..n]);
      var v := Run(w, steps[..n]);
      if steps[n].Act? {
        ReconcileNeverTwoCodes(v, steps[n].inputs);
      }
    }
  }

  lemma ReconcileNeverTwoCodes(w: World, inputs: Inputs)
    requires |w.codes| <= 1 && "" !in w.codes && w.buffer == [] && !w.stuck
    ensures var v := Reconcile(w, inputs).world;
            |v.codes| <= 1 && "" !in v.codes && v.buffer == [] && !v.stuck
  {
    HandleNeverTwoCodes(Store(w.codes, w.buffer, []), w.service, inputs);
  }

  lemma HandleNeverTwoCodes(s: Store, svc: Service, inputs: Inputs)
    requires |s.codes| <= 1 && "" !in s.codes && s.buffer == [] && s.log == []
    ensures var h := Handle(s, svc, inputs);
            !h.blocked && |h.store.codes| <= 1 && "" !in h.store.codes
  {
    if svc.IsCodeNumberEmpty() {
      DeletingAtMostOne(s, inputs.rpcs.okDeletes, DeletedCode);
    } else {
      HandleKeycodeNeverTwoCodes(s, svc, inputs.rpcs, inputs.writer.Lands());
    }
  }

  lemma HandleKeycodeNeverTwoCodes(s: Store, svc: Service, r: Rpcs, persisted: bool)
    requires |s.codes| <= 1 && "" !in s.codes && s.buffer == [] && s.log == [] && svc.spec.codeNumber != ""
    ensures var h := HandleKeycode(s, svc, r, persisted);
            h.outcome != Blocked && |h.store.codes| <= 1 && "" !in h.store.codes
  {
    DeletingAtMostOne(s, r.okDeletes, NewCode(svc.spec.codeNumber));
  }

  // ------------------------------------------------------------ interrupted updates

  /** Every repository call of an attempt succeeds. */
  predicate Clean(r: Rpcs, codes: seq<string>) {
    r.listOk && r.sendOk && r.okDeletes >= NonBlankCount(codes)
  }

  /** An attempt to apply the same new code, from any in-memory object, cut off anywhere. */
  datatype Attempt = Attempt(service: Service, rpcs: Rpcs, persisted: bool)

  function AfterAttempts(codes: seq<string>, attempts: seq<Attempt>): seq<string>
    decreases |attempts|
  {
    if attempts == [] then codes
    else
      var n := |attempts| - 1;
      var before := AfterAttempts(codes, attempts[..n]);
      HandleKeycode(Store(before, [], []), attempts[n].service, attempts[n].rpcs, attempts[n].persisted).store.codes
  }

  /** One clean attempt for an ordinary code replaces everything but blank entries. */
  lemma CleanAttempt(codes: seq<string>, svc: Service, r: Rpcs, persisted: bool)
    requires Clean(r, codes) && NonBlankCount(codes) < CHANNEL_CAPACITY
    requires svc.spec.codeNumber != "" && !IsSpecial(svc.spec.codeNumber)
    ensures var h := HandleKeycode(Store(codes, [], []), svc, r, persisted);
            && h.outcome == Finished
            && h.store.codes == Blank(codes) + [svc.spec.codeNumber]
            && h.service.spec.codeNumber == svc.spec.codeNumber
            && h.service.status.codeNumber == svc.spec.codeNumber
            && h.service.status.state == PollingRegistrationData
  {
    DeleteAllEffect(Store(codes, [], []), codes, r.okDeletes, NewCode(svc.spec.codeNumber));
    DeletingEverythingLeavesBlank(codes);
  }

  /** A cut-off attempt may delete codes and may leave the new one, never anything else. */
  lemma AnyAttempt(codes: seq<string>, svc: Service, r: Rpcs, persisted: bool)
    requires svc.spec.codeNumber != "" && !IsSpecial(svc.spec.codeNumber)
    ensures var after := HandleKeycode(Store(codes, [], []), svc, r, persisted).store.codes;
            && Blank(after) == Blank(codes)
            && NonBlankCount(after) <= (if NonBlankCount(codes) > 1 then NonBlankCount(codes) else 1)
  {
    var s := Store(codes, [], []);
    DeleteAllEffect(s, codes, r.okDeletes, NewCode(svc.spec.codeNumber));
    DeletingEverythingLeavesBlank(codes);
    var h := HandleKeycode(s, svc, r, persisted);
    if codes == [] {
      assert Blank([svc.spec.codeNumber]) == [];
    } else if r.listOk {
      var (s1, end) := DeleteAll(s, codes, r.okDeletes, NewCode(svc.spec.codeNumber));
      if end == Finished {
        BlankAppend(s1.codes, svc.spec.codeNumber);
        assert NonBlankCount(s1.codes) == 0;
      }
    }
  }

  lemma {:induction false} BlankAppend(codes: seq<string>, code: string)
    requires code != ""
    ensures Blank(codes + [code]) == Blank(codes)
  {
    if codes == [] {
      assert codes + [code] == [code];
    } else {
      assert (codes + [code])[1..] == codes[1..] + [code];
      BlankAppend(codes[1..], code);
    }
  }

  lemma {:induction false} AttemptsOnlyShrink(codes: seq<string>, attempts: seq<Attempt>, code: string)
    requires code != "" && !IsSpecial(code)
    requires forall a :: a in attempts ==> a.service.spec.codeNumber == code
    ensures var after := AfterAttempts(codes, attempts);
            && Blank(after) == Blank(codes)
            && NonBlankCount(after) <= (if NonBlankCount(codes) > 1 then NonBlankCount(codes) else 1)
    decreases |attempts|
  {
    if attempts != [] {
      var n := |attempts| - 1;
      AttemptsOnlyShrink(codes, attempts[..n], code);
      var a := attempts[n];
      assert a in attempts;
      AnyAttempt(AfterAttempts(codes, attempts[..n]), a.service, a.rpcs, a.persisted);
    }
  }

  /** Interrupted updates self-stabilise: after any number of cut-off attempts, one clean
      attempt on what they left, as long as that is fewer than a hundred codes, leaves the
      new code and any blank entries. */
  lemma InterruptedUpdatesStabilise(codes: seq<string>, attempts: seq<Attempt>, last: Attempt, code: string)
    requires code != "" && !IsSpecial(code) && NonBlankCount(AfterAttempts(codes, attempts)) < CHANNEL_CAPACITY
    requires forall a :: a in attempts + [last] ==> a.service.spec.codeNumber == code
    requires Clean(last.rpcs, AfterAttempts(codes, attempts))
    ensures var left := Store(AfterAttempts(codes, attempts), [], []);
            var h := HandleKeycode(left, last.service, last.rpcs, last.persisted);
            && h.outcome == Finished
            && h.store.codes == Blank(codes) + [code]
            && h.service.status.codeNumber == code
            && h.service.status.state == PollingRegistrationData
    ensures "" !in codes ==> Blank(codes) + [code] == [code]
  {
    assert (attempts + [last])[|attempts|] == last;
    assert forall a :: a in attempts ==> a in attempts + [last];
    AttemptsOnlyShrink(codes, attempts, code);
    CleanAttempt(AfterAttempts(codes, attempts), last.service, last.rpcs, last.persisted);
    if "" !in codes {
      NoBlanks(codes);
    }
  }

  /** That is where a single clean attempt on the original repository ends, and if it was
      fewer than a hundred codes then, it still is after any attempts. */
  lemma InterruptionsDoNotShow(
      codes: seq<string>, attempts: seq<Attempt>, last: Attempt, single: Attempt, code: string)
    requires code != "" && !IsSpecial(code) && NonBlankCount(codes) < CHANNEL_CAPACITY
    requires forall a :: a in attempts + [last, single] ==> a.service.spec.codeNumber == code
    requires Clean(last.rpcs, AfterAttempts(codes, attempts)) && Clean(single.rpcs, codes)
    ensures var left := Store(AfterAttempts(codes, attempts), [], []);
            var h := HandleKeycode(left, last.service, last.rpcs, last.persisted);
            var one := HandleKeycode(Store(codes, [], []), single.service, single.rpcs, single.persisted);
            && h.outcome == one.outcome && h.store.codes == one.store.codes
            && h.service.status.codeNumber == one.service.status.codeNumber
            && h.service.status.state == one.service.status.state
  {
    var all := attempts + [last, single];
    assert all[|attempts|] == last && all[|attempts| + 1] == single;
    assert forall a :: a in attempts + [last] ==> a in all;
    assert forall a :: a in attempts ==> a in all;
    AttemptsOnlyShrink(codes, attempts, code);
    InterruptedUpdatesStabilise(codes, attempts, last, code);
    CleanAttempt(codes, single.service, single.rpcs, single.persisted);
  }

  lemma {:induction false} NoBlanks(codes: seq<string>)
    requires "" !in codes
    ensures Blank(codes) == []
  {
    if codes != [] {
      assert codes[0] in codes;
      assert forall c :: c in codes[1..] ==> c in codes;
      NoBlanks(codes[1..]);
    }
  }
}
