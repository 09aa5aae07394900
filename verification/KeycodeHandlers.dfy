/** What one call of each keycode handler does to the repository, the event
    channel and the in-memory AlamedaService, for every way its calls can fail. */
module KeycodeHandlers {
  import opened Options
  import opened KeycodeTypes

  const CHANNEL_CAPACITY := 100

  /** The repository's codes in listing order, the event channel, and the log. */
  datatype Store = Store(codes: seq<string>, buffer: seq<Event>, log: seq<Entry>)

  /** The fate of the repository calls of one reconcile. A failed call has no effect.
      `okDeletes` deletions succeed before one fails; a loop needing no more than
      that many sees no failure. `registration` and `detail` carry the replies. */
  datatype Rpcs = Rpcs(
    listOk: bool,
    okDeletes: nat,
    sendOk: bool,
    registration: Option<string>,
    detail: Option<bool>,
    signatureOk: bool)

  /** `Blocked`: a send on the full channel never returns. */
  datatype Outcome = Finished | Failed | Blocked

  datatype Handled = Handled(store: Store, service: Service, outcome: Outcome)

  /** Which code a failed deletion is reported under. */
  datatype Blame = DeletedCode | NewCode(code: string)

  function WithoutCode(codes: seq<string>, code: string): (r: seq<string>)
    ensures forall c :: c in r <==> c in codes && c != code
    ensures |r| <= |codes|
  {
    if codes == [] then []
    else if codes[0] == code then WithoutCode(codes[1..], code)
    else [codes[0]] + WithoutCode(codes[1..], code)
  }

  function Emit(s: Store, e: Event): (Store, bool) {
    if |s.buffer| >= CHANNEL_CAPACITY then (s, true)
    else (s.(buffer := s.buffer + [e]), false)
  }

  function Delete(s: Store, code: string): Store {
    s.(codes := WithoutCode(s.codes, code), log := s.log + [Deleted(code)])
  }

  function Send(s: Store, code: string): Store {
    s.(codes := s.codes + [code], log := s.log + [Sent(code)])
  }

  function FailedDelete(blame: Blame, code: string): Event {
    Event(DeleteFailed, if blame.NewCode? then blame.code else code)
  }

  /** The deletion loop both handlers share: blank codes are skipped, the first
      failure ends the loop, and every attempt reports an event. */
  function DeleteAll(s: Store, details: seq<string>, ok: nat, blame: Blame): (Store, Outcome)
    decreases |details|
  {
    if details == [] then (s, Finished)
    else if details[0] == "" then DeleteAll(s, details[1..], ok, blame)
    else if ok == 0 then
      var (s1, full) := Emit(s, FailedDelete(blame, details[0]));
      (s1, if full then Blocked else Failed)
    else
      var (s1, full) := Emit(Delete(s, details[0]), Event(DeleteSucceeded, details[0]));
      if full then (s1, Blocked) else DeleteAll(s1, details[1..], ok - 1, blame)
  }

  function HandleEmptyKeycode(s: Store, svc: Service, r: Rpcs): (Store, Outcome) {
    if !svc.IsCodeNumberUpdated() then (s, Finished)
    else if !r.listOk then (s, Failed)
    else DeleteAll(s, s.codes, r.okDeletes, DeletedCode)
  }

  function Applied(svc: Service): Service {
    svc.(status := svc.status.(codeNumber := svc.spec.codeNumber, state := PollingRegistrationData))
  }

  function Cleared(svc: Service): Service {
    svc.(spec := svc.spec.(signatureData := ""),
         status := Status("", "", WaitingKeycode, NoError, ""))
  }

  function AdoptCode(code: string): Service -> Service {
    (svc: Service) => svc.(spec := Spec(code, ""),
                           status := Status(code, "", PollingRegistrationData, NoError, ""))
  }

  function SendAndReport(s: Store, svc: Service): Handled {
    var (s1, full) := Emit(Send(s, svc.spec.codeNumber), Event(AddSucceeded, svc.spec.codeNumber));
    if full then Handled(s1, svc, Blocked) else Handled(s1, Applied(svc), Finished)
  }

  function HandleKeycode(s: Store, svc: Service, r: Rpcs, persisted: bool): Handled {
    var code := svc.spec.codeNumber;
    if !r.listOk then Handled(s, svc, Failed)
    else if s.codes == [] then
      if r.sendOk then SendAndReport(s, svc)
      else
        var (s1, full) := Emit(s, Event(AddFailed, code));
        Handled(s1, svc, if full then Blocked else Failed)
    else if IsSpecial(code) then
      var s1 := s.(log := s.log + [Adopted(s.codes[0], persisted)]);
      Handled(s1, AdoptCode(s.codes[0])(svc), Finished)
    else
      var (s1, end) := DeleteAll(s, s.codes, r.okDeletes, NewCode(code));
      if end != Finished then Handled(s1, svc, end)
      else if r.sendOk then SendAndReport(s1, Cleared(svc))
      else Handled(s1, Cleared(svc), Failed)
  }

  // ------------------------------------------------------------ the deletion loop

  function Blank(codes: seq<string>): (r: seq<string>)
    ensures forall c :: c in r ==> c == ""
    ensures |r| <= |codes|
  {
    if codes == [] then []
    else if codes[0] == "" then [codes[0]] + Blank(codes[1..])
    else Blank(codes[1..])
  }

  /** How many deletions a full run of the loop makes. */
  function NonBlankCount(codes: seq<string>): nat {
    |codes| - |Blank(codes)|
  }

  function WithoutAll(codes: seq<string>, gone: seq<string>): (r: seq<string>)
    ensures |r| <= |codes|
    ensures forall c :: c in r ==> c in codes
    decreases |gone|
  {
    if gone == [] then codes
    else if gone[0] == "" then WithoutAll(codes, gone[1..])
    else WithoutAll(WithoutCode(codes, gone[0]), gone[1..])
  }

  lemma {:induction false} WithoutCodeKeepsBlank(codes: seq<string>, code: string)
    requires code != ""
    ensures Blank(WithoutCode(codes, code)) == Blank(codes)
  {
    if codes != [] {
      WithoutCodeKeepsBlank(codes[1..], code);
      var rest := WithoutCode(codes[1..], code);
      if codes[0] != code {
        assert ([codes[0]] + rest)[1..] == rest;
      }
    }
  }

  lemma {:induction false} WithoutAllMembers(codes: seq<string>, gone: seq<string>)
    ensures forall c :: c in WithoutAll(codes, gone) <==> c in codes && (c == "" || c !in gone)
    ensures Blank(WithoutAll(codes, gone)) == Blank(codes)
    decreases |gone|
  {
    if gone != [] {
      assert gone == [gone[0]] + gone[1..];
      if gone[0] == "" {
        WithoutAllMembers(codes, gone[1..]);
      } else {
        WithoutAllMembers(WithoutCode(codes, gone[0]), gone[1..]);
        WithoutCodeKeepsBlank(codes, gone[0]);
      }
    }
  }

  lemma {:induction false} AllBlankIsBlank(codes: seq<string>)
    requires forall c :: c in codes ==> c == ""
    ensures Blank(codes) == codes
  {
    if codes != [] {
      assert codes[0] in codes;
      assert forall c :: c in codes[1..] ==> c in codes;
      AllBlankIsBlank(codes[1..]);
    }
  }

  /** Deleting every listed code leaves exactly the blank entries the loop skips. */
  lemma DeletingEverythingLeavesBlank(codes: seq<string>)
    ensures WithoutAll(codes, codes) == Blank(codes)
  {
    WithoutAllMembers(codes, codes);
    AllBlankIsBlank(WithoutAll(codes, codes));
  }

  /** What a run of the loop does: which codes survive, which entries are logged,
      how many events it adds, and exactly when it finishes, fails or blocks. */
  lemma {:induction false} DeleteAllEffect(s: Store, details: seq<string>, ok: nat, blame: Blame)
    requires |s.buffer| <= CHANNEL_CAPACITY
    ensures var n := NonBlankCount(details);
            var room := CHANNEL_CAPACITY - |s.buffer|;
            var (s1, end) := DeleteAll(s, details, ok, blame);
            && (end == Finished <==> n <= ok && n <= room)
            && (end == Failed <==> ok < n && ok < room)
            && (end == Blocked <==> room < n && room <= ok)
            && (end == Finished ==> s1.codes == WithoutAll(s.codes, details) && |s1.buffer| == |s.buffer| + n)
            && s.buffer <= s1.buffer && |s1.buffer| <= CHANNEL_CAPACITY
            && s.log <= s1.log
            && (forall e :: e in s1.log[|s.log|..] ==> e.Deleted? && e.code in details && e.code != "")
            && |s1.codes| <= |s.codes|
            && (forall c :: c in s1.codes ==> c in s.codes)
            && Blank(s1.codes) == Blank(s.codes)
            && (ok == 0 || n == 0 ==> s1.codes == s.codes && s1.log == s.log)
            && (ok > 0 && n > 0 ==> |s1.log| > |s.log|)
    decreases |details|
  {
    if details != [] {
      assert details == [details[0]] + details[1..];
      if details[0] == "" {
        DeleteAllEffect(s, details[1..], ok, blame);
      } else if ok > 0 {
        var d := Delete(s, details[0]);
        WithoutCodeKeepsBlank(s.codes, details[0]);
        var (s1, full) := Emit(d, Event(DeleteSucceeded, details[0]));
        if !full {
          DeleteAllEffect(s1, details[1..], ok - 1, blame);
          var (s2, _) := DeleteAll(s1, details[1..], ok - 1, blame);
          assert s2.log[|s.log|..] == [Deleted(details[0])] + s2.log[|s1.log|..];
        } else {
          assert s1.log[|s.log|..] == [Deleted(details[0])];
        }
      } else {
        var (s1, full) := Emit(s, FailedDelete(blame, details[0]));
      }
    }
  }
}
