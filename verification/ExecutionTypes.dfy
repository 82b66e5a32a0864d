/** The data of the factory-execution protocol: timestamps, events, the record. */
module ExecutionTypes {
  import opened Common

  /** A JavaScript value that went through JSON. Maps have no key order, so `==`
      here is what comparing the sorted-key serializations decides. */
  datatype Json =
    | JNull
    | JBool(b: bool)
    | JNum(n: int)
    | JStr(s: string)
    | JArr(items: seq<Json>)
    | JObj(fields: map<string, Json>)

  /** A timestamp string together with what `Date.parse` answers for it (`None` is
      NaN). The one fact used about `Date.parse` is that it rejects the empty string. */
  datatype RawStamp = RawStamp(text: string, ms: Option<int>)
  type Stamp = s: RawStamp | s.ms.Some? ==> s.text != "" witness RawStamp("", None)

  /** `Date.parse(a) <= Date.parse(b)`, false as soon as either side is NaN. */
  predicate NotAfter(a: Stamp, b: Stamp) {
    a.ms.Some? && b.ms.Some? && a.ms.value <= b.ms.value
  }

  type Digits = s: string | |s| > 0 && AllDigits(s) witness "0"

  /** How an event spells its attempt: a number, or a string of decimal digits. */
  datatype Attempt = NumberAttempt(n: int) | TextAttempt(d: Digits)

  const MAX_SAFE_INTEGER := 9007199254740991

  datatype Stage = Implementation | Gating | Integrating | Completed | Refused
  datatype Boundary = AtGates | AtIntegration
  datatype GateState = Passed | Skipped | Failed | Infrastructure
  datatype IntegrationState = Running | Landed | Parked | NotLanded

  /** A candidate's portable reference: its verification clock and the rest of it. */
  datatype Reference = Reference(verifiedAt: Option<Stamp>, rest: Json)

  datatype Candidate = Candidate(
    id: Option<string>,
    commit: string,
    tree: string,
    supersedes: Option<string>,
    commitsSeen: seq<string>,
    reference: Option<Reference>,
    publishedAt: Option<Stamp>,
    verifiedAt: Option<Stamp>,
    producedBy: Option<int>,
    rest: Json)

  /** `String(candidate_id)`: an absent id prints as "undefined". */
  function IdText(id: Option<string>): string {
    if id.Some? then id.value else "undefined"
  }

  datatype PinnedGate = PinnedGate(id: string, nodeId: Option<string>, revision: Option<string>, rejudgeOnRepin: bool)

  datatype GateRow = GateRow(
    id: string,
    state: Option<GateState>,
    attempt: int,
    settledAt: Option<Stamp>,
    candidateId: Option<string>)

  datatype Integration = Integration(
    state: IntegrationState,
    attempt: int,
    at: Option<Stamp>,
    ref: Option<string>,
    commit: Option<string>)

  /** The provider's half of an attempt row: the persisted submit request, the
      environment handle it came back with, and the last state observed there. */
  datatype Provider = Provider(
    id: string,
    handle: Json,
    submitKey: string,
    request: Option<Json>,
    env: Option<Json>,
    submittingAt: Option<Stamp>,
    submittedAt: Option<Stamp>,
    lastState: Option<string>,
    lastObservedAt: Option<Stamp>,
    lastDetail: Option<string>,
    observedSeq: nat)

  datatype AttemptRow = AttemptRow(
    index: int,
    pool: string,
    stage: string,
    runId: Option<string>,
    state: Option<string>,
    outcome: Option<string>,
    startedAt: Option<Stamp>,
    finishedAt: Option<Stamp>,
    provider: Option<Provider>)

  datatype Owner = Owner(worker: string, machine: Option<string>, instance: Option<string>, lease: Stamp, fence: nat)

  datatype Escalation = Escalation(nodeId: string, reason: Option<string>, at: Option<Stamp>)

  datatype Completion = Completion(boundary: Boundary, writtenAt: Option<Stamp>, resolver: Option<string>)

  datatype ForcedRelease = ForcedRelease(
    requestId: string,
    person: string,
    reason: string,
    at: Stamp,
    expectedRevision: string,
    previousOwner: Option<Owner>,
    previousStage: Stage,
    previousSeq: nat,
    previousCandidate: Option<string>,
    fence: nat)

  /** What is fixed when the execution opens; no event rewrites any of it. */
  datatype Pins = Pins(
    executionId: string,
    itemNode: string,
    factoryNode: string,
    gates: seq<PinnedGate>,
    createdAt: Option<Stamp>)

  datatype Record = Record(
    pins: Pins,
    stage: Stage,
    attempts: seq<AttemptRow>,
    gateResults: seq<GateRow>,
    candidate: Option<Candidate>,
    candidates: seq<Candidate>,
    integration: Option<Integration>,
    escalations: seq<Escalation>,
    owner: Option<Owner>,
    completion: Completion,
    prematureResolution: bool,
    sequence: nat,
    updatedAt: Option<Stamp>,
    releasedAt: Option<Stamp>,
    forcedRelease: Option<ForcedRelease>)

  /** What an event says about the attempt row it may have to create. */
  datatype RowSeed = RowSeed(pool: string, stage: Option<string>, runId: Option<string>)

  /** The event vocabulary. `None` states are values outside the enumeration. */
  datatype Body =
    | StageStarted(attempt: Option<Attempt>, row: RowSeed)
    | StageObserved(attempt: Option<Attempt>, row: RowSeed, state: Option<string>, outcome: Option<string>)
    | CandidateSubmitted(pinned: Option<Candidate>, supersedes: Option<string>, premature: bool)
    | CandidateSuperseded(pinned: Option<Candidate>, supersedes: Option<string>, premature: bool)
    | CandidatePublished(candidateId: Option<string>, reference: Option<Reference>,
                         publishedAt: Option<Stamp>, verifiedAt: Option<Stamp>)
    | GateStarted(gateId: string, attempt: Option<Attempt>)
    | GateSettled(gateId: string, attempt: Option<Attempt>, verdict: Option<GateState>, candidateId: Option<string>)
    | RescueStarted(attempt: Option<Attempt>)
    | IntegrationStarted(attempt: Option<Attempt>)
    | IntegrationSettled(attempt: Option<Attempt>, result: Option<IntegrationState>,
                         ref: Option<string>, commit: Option<string>)
    | EscalationFiled(nodeId: Option<string>, reason: Option<string>, terminal: bool)
    | CompletionWritten(resolver: Option<string>)
    | AttemptSubmitting(attempt: Option<Attempt>, row: RowSeed, provider: string, submitKey: Option<string>,
                        request: Json)
    | AttemptSubmitted(attempt: Option<Attempt>, row: RowSeed, provider: string, submitKey: Option<string>,
                       handle: Json, env: Json, submittedAt: Option<Stamp>)
    | AttemptObserved(attempt: Option<Attempt>, submitKey: Option<string>, observed: string,
                      observedAt: Option<Stamp>, detail: Option<string>)
    | UnknownType
  {
    predicate ProviderEvent() {
      AttemptSubmitting? || AttemptSubmitted? || AttemptObserved?
    }

    predicate Pin() {
      CandidateSubmitted? || CandidateSuperseded?
    }
  }

  /** `key` is the event's own `idempotency_key`; `marked` says it carries an
      `admission_version`. */
  datatype Event = Event(body: Body, at: Option<Stamp>, fence: Option<int>, key: Option<string>, marked: bool)

  datatype Code =
    | InvalidEvent | ExecutionTerminal | LeaseLive | AlreadyOwned | NotOwned | FenceStale | LeaseExpired
    | UnknownCandidate | UnknownGate | NoCandidate | GatesUnsettled | CandidateConflict
    | BoundaryNotReached | AttemptHandleConflict | Conflict

  datatype Verdict<+T> = Accept(value: T) | Refuse(code: Code)

  /** The answer to one event: a new record under a key, a replay, or a refusal. */
  datatype Outcome = Applied(record: Record, key: string) | Replayed(key: string) | Rejected(code: Code)
}
