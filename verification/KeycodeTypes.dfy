/** The keycode part of the AlamedaService resource, the events the controller
    reports, and the log of what the keycode repository was made to do. */
module KeycodeTypes {

  /** `Unknown` stands for any string the controller's switch does not list. */
  datatype State =
    | Default
    | WaitingKeycode
    | PollingRegistrationData
    | WaitingSignatureData
    | Done
    | Unknown(name: string)

  /** Which step put a message into `lastErrorMessage`; the wrapped cause is dropped. */
  datatype ErrorMessage =
    | NoError
    | GetRepositoryFailed
    | HandleEmptyFailed
    | UpdateKeycodeFailed
    | HandleKeycodeFailed
    | PollFailed
    | HandleSignatureFailed

  datatype Spec = Spec(codeNumber: string, signatureData: string)

  datatype Status = Status(
    codeNumber: string,
    registrationData: string,
    state: State,
    lastErrorMessage: ErrorMessage,
    summary: string)

  /** `deleting` is true when the object carries a deletion timestamp. */
  datatype Service = Service(spec: Spec, status: Status, deleting: bool)
  {
    predicate IsCodeNumberEmpty() {
      spec.codeNumber == ""
    }

    predicate IsCodeNumberUpdated() {
      spec.codeNumber != status.codeNumber
    }
  }

  const EMPTY_STATUS := Status("", "", Default, NoError, "")

  datatype EventKind = AddSucceeded | AddFailed | DeleteSucceeded | DeleteFailed

  datatype Event = Event(kind: EventKind, code: string)

  /** What happened to the license, in order. `Adopted` is recorded when a special
      code takes over a code that is already stored; `persisted` says whether the
      status write at the end of that reconcile landed. */
  datatype Entry =
    | Deleted(code: string)
    | Sent(code: string)
    | Adopted(code: string, persisted: bool)
    | RegisteredReply(code: string)
    | SignatureAccepted(code: string, signature: string)

  const SPECIAL_KEYCODE := "D3JXNLIFTQKQEZ3WZBNIDA3WZA7HKQ"

  function StripDashes(s: string): string {
    if s == "" then ""
    else if s[0] == '-' then StripDashes(s[1..])
    else [s[0]] + StripDashes(s[1..])
  }

  predicate IsSpecial(code: string) {
    StripDashes(code) == SPECIAL_KEYCODE
  }
}
