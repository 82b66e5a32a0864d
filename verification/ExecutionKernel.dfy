/** The pure transition rules of `lib/kernel/execution.js` on record values.
    `historical` is the trusted-replay mode the journal fold runs under. */
module ExecutionKernel {
  import opened Common
  import opened ExecutionTypes

  // ---------- derived reads ----------

  predicate PublishedCandidate(c: Option<Candidate>) {
    && c.Some?
    && c.value.reference.Some?
    && c.value.reference.value.verifiedAt.Some?
    && c.value.reference.value.verifiedAt.value.text != ""
  }

  predicate ValidTime(s: Option<Stamp>) {
    s.Some? && s.value.ms.Some?
  }

  predicate Terminal(r: Record) {
    r.stage.Completed? || r.releasedAt.Some?
  }

  predicate GateOnTip(r: Record, g: GateRow) {
    && r.candidate.Some?
    && if g.candidateId.None? then |r.candidates| <= 1
       else g.candidateId.value == IdText(r.candidate.value.id)
  }

  /** The first pinned gate with this id keeps a verdict given on an ancestor. */
  predicate OptedOut(gates: seq<PinnedGate>, id: string) {
    gates != [] && if gates[0].id == id then !gates[0].rejudgeOnRepin else OptedOut(gates[1..], id)
  }

  predicate GateAccepted(r: Record, g: GateRow, historical: bool) {
    && (g.state == Some(Passed) || g.state == Some(Skipped))
    && (GateOnTip(r, g)
        || (historical && r.candidate.Some? && g.candidateId.None?)
        || OptedOut(r.pins.gates, g.id))
  }

  predicate GatesAccepted(r: Record, historical: bool) {
    && (if historical then r.candidate.Some? else PublishedCandidate(r.candidate))
    && forall g | g in r.gateResults :: GateAccepted(r, g, historical)
  }

  predicate BoundaryReached(r: Record, historical: bool) {
    && !r.stage.Refused?
    && r.releasedAt.None?
    && (r.stage.Completed?
        || (&& GatesAccepted(r, historical)
            && (r.completion.boundary.AtIntegration? ==>
                  r.integration.Some? && r.integration.value.state.Landed?)))
  }

  // ---------- ownership ----------

  function OwnershipFence(r: Record, fence: Option<int>): (v: Verdict<()>) {
    if r.owner.None? then Refuse(NotOwned)
    else if fence != Some(r.owner.value.fence) then Refuse(FenceStale)
    else Accept(())
  }

  function OwnershipLive(r: Record, fence: Option<int>, now: Option<Stamp>): (v: Verdict<()>) {
    var held := OwnershipFence(r, fence);
    if held.Refuse? then held
    else if !ValidTime(now) || r.owner.value.lease.ms.None? || NotAfter(r.owner.value.lease, now.value) then
      Refuse(LeaseExpired)
    else Accept(())
  }

  predicate SameOwner(o: Owner, worker: string, machine: Option<string>) {
    o.worker == worker && o.machine == machine
  }

  predicate LeaseExpiredAt(o: Owner, now: Stamp) {
    NotAfter(o.lease, now)
  }

  function ClaimedFence(r: Record, worker: string, machine: Option<string>, instance: Option<string>, takeover: bool): nat
  {
    if r.owner.None? then 1
    else
      var o := r.owner.value;
      if SameOwner(o, worker, machine) && o.instance == instance && !takeover then o.fence else o.fence + 1
  }

  function Claim(r: Record, worker: string, machine: Option<string>, instance: Option<string>,
                 lease: Stamp, now: Stamp, takeover: bool): Verdict<Record>
  {
    if Terminal(r) then Refuse(ExecutionTerminal)
    else if r.owner.Some? && !LeaseExpiredAt(r.owner.value, now) && !SameOwner(r.owner.value, worker, machine) then
      Refuse(if takeover then LeaseLive else AlreadyOwned)
    else
      var fence := ClaimedFence(r, worker, machine, instance, takeover);
      Accept(r.(owner := Some(Owner(worker, machine, instance, lease, fence)), updatedAt := Some(now)))
  }

  function Renew(r: Record, fence: Option<int>, lease: Stamp, now: Stamp): Verdict<Record> {
    var live := OwnershipLive(r, fence, Some(now));
    if live.Refuse? then Refuse(live.code)
    else Accept(r.(owner := Some(r.owner.value.(lease := lease)), updatedAt := Some(now)))
  }

  function Release(r: Record, fence: Option<int>, now: Stamp): Verdict<Record> {
    if r.stage.Completed? then Refuse(ExecutionTerminal)
    else
      var live := OwnershipLive(r, fence, Some(now));
      if live.Refuse? then Refuse(live.code)
      else Accept(r.(owner := None, releasedAt := Some(now), updatedAt := Some(now)))
  }

  /** `wellFormed` is the argument check, `reason` the trimmed reason, `revision`
      the digest of the record as it stands. A repeated request is a no-op. */
  function ForceRelease(r: Record, node: string, person: string, reason: string, requestId: string,
                        expected: string, revision: string, wellFormed: bool, now: Stamp): Verdict<Record>
  {
    if !wellFormed || now.ms.None? then Refuse(InvalidEvent)
    else if node != r.pins.itemNode then Refuse(Conflict)
    else if r.forcedRelease.Some? && r.forcedRelease.value.requestId == requestId then
      var prior := r.forcedRelease.value;
      if prior.person != person || prior.reason != reason || prior.expectedRevision != expected then Refuse(Conflict)
      else Accept(r)
    else if Terminal(r) then Refuse(ExecutionTerminal)
    else if expected != revision then Refuse(Conflict)
    else
      var candidate := if r.candidate.Some? then r.candidate.value.id else None;
      var fence := (if r.owner.Some? then r.owner.value.fence else 0) + 1;
      var forced := ForcedRelease(requestId, person, reason, now, expected, r.owner, r.stage, r.sequence, candidate, fence);
      Accept(r.(owner := None, releasedAt := Some(now), updatedAt := Some(now), forcedRelease := Some(forced)))
  }

  // ---------- attempt rows ----------

  /** The position of the first row with this index, or the length when there is none. */
  function Find(rows: seq<AttemptRow>, index: int): (k: nat)
    ensures k <= |rows|
    ensures k < |rows| ==> rows[k].index == index
    ensures forall i | 0 <= i < k :: rows[i].index != index
  {
    if rows == [] then 0
    else if rows[0].index == index then 0
    else 1 + Find(rows[1..], index)
  }

  function ProviderOf(rows: seq<AttemptRow>, index: int): Option<Provider> {
    var k := Find(rows, index);
    if k < |rows| then rows[k].provider else None
  }

  /** Insert after every row whose index is not larger: one step of a stable sort. */
  function InsertRow(rows: seq<AttemptRow>, row: AttemptRow): (sorted: seq<AttemptRow>)
    ensures |sorted| == |rows| + 1
  {
    if rows == [] then [row]
    else if rows[|rows| - 1].index <= row.index then rows + [row]
    else InsertRow(rows[..|rows| - 1], row) + [rows[|rows| - 1]]
  }

  function SortRows(rows: seq<AttemptRow>): (sorted: seq<AttemptRow>)
    ensures |sorted| == |rows|
  {
    if rows == [] then [] else InsertRow(SortRows(rows[..|rows| - 1]), rows[|rows| - 1])
  }

  const POOLS := {"implementation", "retry", "cycle", "rescue"}
  const SETTLED_STATES := {"candidate", "no-candidate", "declined", "cancelled", "exhausted"}
  const TERMINAL_OBSERVED := {"finished", "failed", "lost"}

  function StageText(s: Stage): string {
    match s
    case Implementation => "implementation"
    case Gating => "gating"
    case Integrating => "integration"
    case Completed => "completed"
    case Refused => "refused"
  }

  function FreshRow(index: int, seed: RowSeed, stage: Stage, at: Option<Stamp>): AttemptRow {
    AttemptRow(index,
               if seed.pool in POOLS then seed.pool else "implementation",
               if seed.stage.Some? && seed.stage.value != "" then seed.stage.value else StageText(stage),
               seed.runId, None, None, at, None, None)
  }

  /** The rows with one for `index`, created and sorted in when it is missing. */
  function Upsert(rows: seq<AttemptRow>, index: int, seed: RowSeed, stage: Stage, at: Option<Stamp>): seq<AttemptRow> {
    if Find(rows, index) < |rows| then rows else SortRows(rows + [FreshRow(index, seed, stage, at)])
  }

  function SetRow(rows: seq<AttemptRow>, index: int, row: AttemptRow): seq<AttemptRow> {
    var k := Find(rows, index);
    if k < |rows| then rows[k := row] else rows
  }

  function RowAt(rows: seq<AttemptRow>, index: int): Option<AttemptRow> {
    var k := Find(rows, index);
    if k < |rows| then Some(rows[k]) else None
  }

  // ---------- attempt spellings ----------

  /** `Number(attempt)`. */
  function NumberOf(a: Attempt): int {
    match a
    case NumberAttempt(n) => n
    case TextAttempt(d) => NatValue(d)
  }

  /** The canonical index: a positive safe integer, however it is spelled. */
  function AttemptIndex(a: Option<Attempt>): Option<int> {
    if a.None? then None
    else
      var n := NumberOf(a.value);
      if 1 <= n <= MAX_SAFE_INTEGER then Some(n) else None
  }

  function ShowAttempt(a: Option<Attempt>): string {
    match a
    case None => "undefined"
    case Some(NumberAttempt(n)) => IntText(n)
    case Some(TextAttempt(d)) => d
  }

  /** `Number(attempt) || otherwise`. */
  function NumberOr(a: Option<Attempt>, otherwise: int): int {
    if a.Some? && NumberOf(a.value) != 0 then NumberOf(a.value) else otherwise
  }

  // ---------- idempotency keys ----------

  function AttemptKey(a: Option<Attempt>, raw: bool): string {
    if !raw && AttemptIndex(a).Some? then IntText(AttemptIndex(a).value) else ShowAttempt(a)
  }

  function KeyedProvider(r: Record, a: Option<Attempt>): Option<Provider> {
    if a.Some? then ProviderOf(r.attempts, NumberOf(a.value)) else None
  }

  function ObservedKey(r: Record, a: Option<Attempt>, state: string, raw: bool): string {
    var p := KeyedProvider(r, a);
    var n := if p.Some? then p.value.observedSeq else 0;
    var repeated := p.Some? && p.value.lastState == Some(state);
    r.pins.executionId + ":attempt.observed:" + AttemptKey(a, raw) + ":" + NatText(if repeated then n else n + 1) + ":" + state
  }

  function DerivedKey(r: Record, b: Body, raw: bool): Option<string> {
    var x := r.pins.executionId;
    match b
    case CandidateSubmitted(c, _, _) =>
      Some(if c.Some? && c.value.id.Some? && c.value.id.value != "" then c.value.id.value else x + ":candidate")
    case CandidateSuperseded(c, _, _) =>
      Some(if c.Some? && c.value.id.Some? && c.value.id.value != "" then c.value.id.value else x + ":candidate")
    case CandidatePublished(id, _, _, _) => if id.Some? then Some(x + ":published:" + id.value) else None
    case GateStarted(g, a) => Some(x + ":" + g + ":" + ShowAttempt(a) + ":started")
    case GateSettled(g, a, _, _) => Some(x + ":" + g + ":" + ShowAttempt(a))
    case CompletionWritten(_) => Some(x + ":completion")
    case StageStarted(a, _) => Some(x + ":stage.started:" + ShowAttempt(a))
    case StageObserved(a, _, s, _) => Some(x + ":stage.observed:" + ShowAttempt(a) + ":" + IdText(s))
    case RescueStarted(a) => Some(x + ":rescue:" + ShowAttempt(a))
    case IntegrationStarted(a) => Some(x + ":integration:" + ShowAttempt(a) + ":started")
    case IntegrationSettled(a, _, _, _) => Some(x + ":integration:" + ShowAttempt(a))
    case EscalationFiled(n, _, _) => Some(x + ":escalation:" + IdText(n))
    case AttemptSubmitting(a, _, _, _, _) => Some(x + ":attempt.submitting:" + AttemptKey(a, raw))
    case AttemptSubmitted(a, _, _, _, _, _, _) => Some(x + ":attempt.submitted:" + AttemptKey(a, raw))
    case AttemptObserved(a, _, s, _, _) => Some(ObservedKey(r, a, s, raw))
    case UnknownType => None
  }

  // ---------- provider-attempt events ----------

  /** The provider's submit key, under either of its two spellings. */
  function SubmitKeyOf(e: Event): Option<string>
    requires e.body.ProviderEvent()
  {
    Either(e.body.submitKey, e.key)
  }

  /** A second submission of an attempt under another provider, key or handle. */
  function HandleConflict(r: Record, e: Event): Option<Code>
    requires e.body.ProviderEvent()
  {
    if e.body.AttemptObserved? then None
    else
      var p := KeyedProvider(r, e.body.attempt);
      if p.None? then None
      else
        var same := e.body.provider == p.value.id && SubmitKeyOf(e) == Some(p.value.submitKey);
        if e.body.AttemptSubmitted? && p.value.handle != JNull then
          if e.body.handle == JNull then Some(InvalidEvent)
          else if !same || p.value.handle != e.body.handle then Some(AttemptHandleConflict)
          else None
        else if e.body.AttemptSubmitting? && !same then Some(AttemptHandleConflict)
        else None
  }

  predicate ValidProviderId(id: string) {
    0 < |id| <= 128
  }

  predicate ValidSubmitKey(k: Option<string>) {
    k.Some? && 8 <= |k.value| <= 512
  }

  predicate ValidHandle(h: Json) {
    (h.JStr? && h.s != "") || h.JObj?
  }

  function WithProvider(r: Record, index: int, seed: RowSeed, at: Option<Stamp>, p: Provider): Record {
    var rows := Upsert(r.attempts, index, seed, r.stage, at);
    var row := RowAt(rows, index).GetOr(FreshRow(index, seed, r.stage, at));
    r.(attempts := SetRow(rows, index, row.(provider := Some(p))))
  }

  function ApplySubmitting(r: Record, e: Event, index: int, at: Option<Stamp>): Verdict<Record>
    requires e.body.AttemptSubmitting?
  {
    var existing := ProviderOf(r.attempts, index);
    var key := SubmitKeyOf(e);
    if !ValidProviderId(e.body.provider) || !ValidSubmitKey(key) || !e.body.request.JObj? then Refuse(InvalidEvent)
    else if existing.Some? then
      Refuse(if existing.value.handle != JNull then InvalidEvent else AttemptHandleConflict)
    else
      Accept(WithProvider(r, index, e.body.row, at,
                          Provider(e.body.provider, JNull, key.value, Some(e.body.request), None,
                                   at, None, None, None, None, 0)))
  }

  function ApplySubmitted(r: Record, e: Event, index: int, at: Option<Stamp>, historical: bool): Verdict<Record>
    requires e.body.AttemptSubmitted?
  {
    var existing := ProviderOf(r.attempts, index);
    var key := SubmitKeyOf(e);
    if !ValidProviderId(e.body.provider) || !ValidHandle(e.body.handle) || !ValidSubmitKey(key) then Refuse(InvalidEvent)
    else if e.body.env != JNull && !e.body.env.JObj? then Refuse(InvalidEvent)
    else if existing.Some? && (existing.value.id != e.body.provider || existing.value.submitKey != key.value) then
      Refuse(AttemptHandleConflict)
    else if existing.None? && !historical then Refuse(InvalidEvent)
    else
      var p := existing.GetOr(Provider(e.body.provider, JNull, key.value, None, None,
                                       None, None, None, None, None, 0));
      Accept(WithProvider(r, index, e.body.row, at,
                          p.(handle := e.body.handle,
                             env := if e.body.env != JNull then Some(e.body.env) else None,
                             submittedAt := Either(e.body.submittedAt, at))))
  }

  function ApplyObserved(r: Record, e: Event, index: int, at: Option<Stamp>): Verdict<Record>
    requires e.body.AttemptObserved?
  {
    var existing := RowAt(r.attempts, index);
    if existing.None? || existing.value.provider.None? || existing.value.provider.value.handle == JNull then
      Refuse(InvalidEvent)
    else if e.body.observed == "" then Refuse(InvalidEvent)
    else
      var p := existing.value.provider.value;
      if p.lastState.Some? && p.lastState.value in TERMINAL_OBSERVED then Refuse(InvalidEvent)
      else
        var p' := p.(lastState := Some(e.body.observed),
                     lastObservedAt := Either(e.body.observedAt, at),
                     lastDetail := e.body.detail,
                     observedSeq := p.observedSeq + 1);
        Accept(r.(attempts := SetRow(r.attempts, index, existing.value.(provider := Some(p')))))
  }

  function ApplyAttempt(r: Record, e: Event, at: Option<Stamp>, historical: bool): Verdict<Record>
    requires e.body.ProviderEvent()
  {
    if e.body.attempt.None? || NumberOf(e.body.attempt.value) < 1 then Refuse(InvalidEvent)
    else
      var index := NumberOf(e.body.attempt.value);
      if e.body.AttemptSubmitting? then ApplySubmitting(r, e, index, at)
      else if e.body.AttemptSubmitted? then ApplySubmitted(r, e, index, at, historical)
      else ApplyObserved(r, e, index, at)
  }

  // ---------- stage rows ----------

  function ApplyStageStarted(r: Record, b: Body, at: Option<Stamp>): Verdict<Record>
    requires b.StageStarted?
  {
    if b.attempt.None? then Refuse(InvalidEvent)
    else
      var index := NumberOf(b.attempt.value);
      var rows := Upsert(r.attempts, index, b.row, r.stage, at);
      var row := RowAt(rows, index).GetOr(FreshRow(index, b.row, r.stage, at));
      var row' := row.(state := Some("dispatched"), runId := Either(b.row.runId, row.runId));
      Accept(r.(attempts := SetRow(rows, index, row'), stage := Implementation))
  }

  function ApplyStageObserved(r: Record, b: Body, at: Option<Stamp>): Verdict<Record>
    requires b.StageObserved?
  {
    if b.attempt.None? then Refuse(InvalidEvent)
    else
      var index := NumberOf(b.attempt.value);
      var rows := Upsert(r.attempts, index, b.row, r.stage, at);
      var row := RowAt(rows, index).GetOr(FreshRow(index, b.row, r.stage, at));
      var state := Either(b.state, row.state);
      var settled := state.Some? && state.value in SETTLED_STATES;
      var row' := row.(state := state,
                       outcome := Either(b.outcome, row.outcome),
                       runId := Either(b.row.runId, row.runId),
                       finishedAt := if settled then at else row.finishedAt);
      Accept(r.(attempts := SetRow(rows, index, row'),
                stage := if state == Some("exhausted") then Refused else r.stage))
  }

  // ---------- candidates ----------

  /** The position of the first chain entry with this id text, or the length. */
  function FindCandidate(chain: seq<Candidate>, id: string): (k: nat)
    ensures k <= |chain|
    ensures k < |chain| ==> IdText(chain[k].id) == id
    ensures forall i | 0 <= i < k :: IdText(chain[i].id) != id
  {
    if chain == [] then 0
    else if IdText(chain[0].id) == id then 0
    else 1 + FindCandidate(chain[1..], id)
  }

  /** A verdict without a candidate is bound to the tip the re-pin leaves behind. */
  function BindVerdicts(gates: seq<GateRow>, tip: Option<string>): (bound: seq<GateRow>)
    ensures |bound| == |gates|
    ensures forall i | 0 <= i < |gates| :: bound[i] ==
              if gates[i].candidateId.None? && gates[i].state.Some? then gates[i].(candidateId := tip) else gates[i]
  {
    seq(|gates|, i requires 0 <= i < |gates| =>
      if gates[i].candidateId.None? && gates[i].state.Some? then gates[i].(candidateId := tip) else gates[i])
  }

  /** A resubmission of the tip only grows its list of commits seen. */
  function SameTip(r: Record, c: Candidate): Record
    requires r.candidate.Some?
  {
    var tip := r.candidate.value;
    var seen := if c.commit != tip.commit && c.commit !in tip.commitsSeen then tip.commitsSeen + [c.commit]
                else tip.commitsSeen;
    var merged := tip.(commitsSeen := seen);
    var i := FindCandidate(r.candidates, IdText(c.id));
    r.(candidate := Some(merged),
       candidates := if i < |r.candidates| then r.candidates[i := merged] else r.candidates + [merged])
  }

  /** A new tip: the chain grows, unbound verdicts stay with the old tip, and
      integration is cleared. */
  function NewTip(r: Record, c: Candidate, invalidate: bool): Record {
    var clear := r.candidate.Some? && invalidate;
    var entry := c.(supersedes := if r.candidate.Some? then Some(IdText(r.candidate.value.id)) else c.supersedes);
    r.(gateResults := if clear then BindVerdicts(r.gateResults, r.candidate.value.id) else r.gateResults,
       integration := if clear then None else r.integration,
       candidate := Some(entry),
       candidates := r.candidates + [entry])
  }

  function SettlePin(r: Record, b: Body, at: Option<Stamp>): Record
    requires b.Pin() && b.pinned.Some?
  {
    var k := if b.pinned.value.producedBy.Some? then Find(r.attempts, b.pinned.value.producedBy.value) else |r.attempts|;
    r.(prematureResolution := r.prematureResolution || b.premature,
       stage := Gating,
       attempts := if k < |r.attempts| then
           r.attempts[k := r.attempts[k].(state := Some("candidate"), outcome := Some("candidate"),
                                          finishedAt := Either(r.attempts[k].finishedAt, at))]
         else r.attempts)
  }

  function PinCandidate(r: Record, b: Body, at: Option<Stamp>, marked: bool, historical: bool): Verdict<Record>
    requires b.Pin()
  {
    if b.pinned.None? || b.pinned.value.commit == "" || b.pinned.value.tree == "" then Refuse(InvalidEvent)
    else
      var c := b.pinned.value;
      var clock := if c.reference.Some? then c.reference.value.verifiedAt else None;
      var tip := r.candidate;
      var sameId := tip.Some? && IdText(tip.value.id) == IdText(c.id);
      if !historical && clock.Some? && !ValidTime(clock) then Refuse(InvalidEvent)
      else if !historical && !sameId && FindCandidate(r.candidates, IdText(c.id)) < |r.candidates| then
        Refuse(CandidateConflict)
      else if sameId then Accept(SettlePin(SameTip(r, c), b, at))
      else if tip.Some? && r.integration.Some? && r.integration.value.state.Landed? then Refuse(CandidateConflict)
      else if tip.Some? && Either(c.supersedes, b.supersedes) != Some(IdText(tip.value.id)) then Refuse(CandidateConflict)
      else Accept(SettlePin(NewTip(r, c, !historical || marked), b, at))
  }

  /** Put `entry` at position `k` of the chain, and at the tip when it is the tip. */
  function PutEntry(r: Record, k: nat, entry: Candidate, id: string): Record
    requires k < |r.candidates|
  {
    r.(candidates := r.candidates[k := entry],
       candidate := if r.candidate.Some? && IdText(r.candidate.value.id) == id then Some(entry) else r.candidate)
  }

  function ApplyPublished(r: Record, b: Body, at: Option<Stamp>, historical: bool): Verdict<Record>
    requires b.CandidatePublished?
  {
    if b.candidateId.None? then Refuse(InvalidEvent)
    else
      var id := b.candidateId.value;
      var k := FindCandidate(r.candidates, id);
      if k == |r.candidates| then Refuse(UnknownCandidate)
      else if historical then
        var entry := r.candidates[k].(reference := Either(b.reference, r.candidates[k].reference),
                                      publishedAt := Either(b.publishedAt, at),
                                      verifiedAt := Either(b.verifiedAt, r.candidates[k].verifiedAt));
        Accept(PutEntry(r, k, entry, id))
      else
        var reference := NormalReference(b);
        if !ValidTime(reference.verifiedAt) then Refuse(InvalidEvent)
        else if PublishedCandidate(Some(r.candidates[k])) && r.candidates[k].reference != Some(reference) then
          Refuse(CandidateConflict)
        else
          var entry := r.candidates[k].(reference := Some(reference),
                                        publishedAt := Either(b.publishedAt, at),
                                        verifiedAt := reference.verifiedAt);
          Accept(PutEntry(r, k, entry, id))
  }

  /** The published reference with its clock filled in: the reference's own clock
      wins over the event's. */
  function NormalReference(b: Body): Reference
    requires b.CandidatePublished?
  {
    var base := b.reference.GetOr(Reference(None, JObj(map[])));
    base.(verifiedAt := Either(base.verifiedAt, b.verifiedAt))
  }

  // ---------- gates, integration, completion ----------

  function FindGate(gates: seq<GateRow>, id: string): (k: nat)
    ensures k <= |gates|
    ensures k < |gates| ==> gates[k].id == id
    ensures forall i | 0 <= i < k :: gates[i].id != id
  {
    if gates == [] then 0
    else if gates[0].id == id then 0
    else 1 + FindGate(gates[1..], id)
  }

  predicate Judgeable(r: Record, historical: bool) {
    if historical then r.candidate.Some? else PublishedCandidate(r.candidate)
  }

  function ApplyGateStarted(r: Record, b: Body, marked: bool, historical: bool): Verdict<Record>
    requires b.GateStarted?
  {
    var k := FindGate(r.gateResults, b.gateId);
    if k == |r.gateResults| then Refuse(UnknownGate)
    else if !Judgeable(r, historical) then Refuse(NoCandidate)
    else
      var g := r.gateResults[k];
      var cleared := if !historical || marked then g.(state := None, candidateId := None) else g;
      Accept(r.(gateResults := r.gateResults[k := cleared.(attempt := NumberOr(b.attempt, g.attempt + 1))],
                stage := Gating))
  }

  function ApplyGateSettled(r: Record, b: Body, at: Option<Stamp>, historical: bool): Verdict<Record>
    requires b.GateSettled?
  {
    var k := FindGate(r.gateResults, b.gateId);
    if k == |r.gateResults| then Refuse(UnknownGate)
    else if b.verdict.None? then Refuse(InvalidEvent)
    else if !Judgeable(r, historical) then Refuse(NoCandidate)
    else if !historical && |r.candidates| > 1 && b.candidateId.None? then Refuse(InvalidEvent)
    else if b.candidateId.Some? && FindCandidate(r.candidates, b.candidateId.value) == |r.candidates| then
      Refuse(UnknownCandidate)
    else
      var g := r.gateResults[k];
      var judged := Either(b.candidateId, r.candidate.value.id);
      var g' := g.(state := b.verdict, attempt := NumberOr(b.attempt, g.attempt), settledAt := at, candidateId := judged);
      Accept(r.(gateResults := r.gateResults[k := g']))
  }

  function ApplyIntegrationSettled(r: Record, b: Body, at: Option<Stamp>): Verdict<Record>
    requires b.IntegrationSettled?
  {
    if r.integration.None? then Refuse(InvalidEvent)
    else if b.result.None? || b.result.value.Running? then Refuse(InvalidEvent)
    else Accept(r.(integration := Some(r.integration.value.(state := b.result.value, at := at, ref := b.ref, commit := b.commit))))
  }

  function ApplyByType(r: Record, e: Event, at: Option<Stamp>, historical: bool): Verdict<Record> {
    match e.body
    case StageStarted(_, _) => ApplyStageStarted(r, e.body, at)
    case StageObserved(_, _, _, _) => ApplyStageObserved(r, e.body, at)
    case CandidateSubmitted(_, _, _) => PinCandidate(r, e.body, at, e.marked, historical)
    case CandidateSuperseded(_, _, _) => PinCandidate(r, e.body, at, e.marked, historical)
    case CandidatePublished(_, _, _, _) => ApplyPublished(r, e.body, at, historical)
    case GateStarted(_, _) => ApplyGateStarted(r, e.body, e.marked, historical)
    case GateSettled(_, _, _, _) => ApplyGateSettled(r, e.body, at, historical)
    case RescueStarted(_) =>
      if r.candidate.None? then Refuse(NoCandidate) else Accept(r.(stage := Gating))
    case IntegrationStarted(a) =>
      if !GatesAccepted(r, historical) then Refuse(GatesUnsettled)
      else Accept(r.(integration := Some(Integration(Running, NumberOr(a, 1), at, None, None)), stage := Integrating))
    case IntegrationSettled(_, _, _, _) => ApplyIntegrationSettled(r, e.body, at)
    case EscalationFiled(n, reason, terminal) =>
      if n.None? || n.value == "" then Refuse(InvalidEvent)
      else Accept(r.(escalations := r.escalations + [Escalation(n.value, reason, at)],
                     stage := if terminal then Refused else r.stage))
    case CompletionWritten(resolver) =>
      if !BoundaryReached(r, historical) then Refuse(BoundaryNotReached)
      else Accept(r.(completion := r.completion.(writtenAt := at, resolver := resolver), stage := Completed))
    case AttemptSubmitting(_, _, _, _, _) => ApplyAttempt(r, e, at, historical)
    case AttemptSubmitted(_, _, _, _, _, _, _) => ApplyAttempt(r, e, at, historical)
    case AttemptObserved(_, _, _, _, _) => ApplyAttempt(r, e, at, historical)
    case UnknownType => Refuse(InvalidEvent)
  }

  // ---------- one event ----------

  /** A live provider event under its canonical attempt number. */
  function Canonical(e: Event): Event
    requires e.body.ProviderEvent() && AttemptIndex(e.body.attempt).Some?
  {
    e.(body := e.body.(attempt := Some(NumberAttempt(AttemptIndex(e.body.attempt).value))))
  }

  /** The key the event is recorded under: its own (never a provider event's), else derived. */
  function LogKey(r: Record, e: Event, historical: bool): Option<string> {
    if e.key.Some? && !e.body.ProviderEvent() then e.key else DerivedKey(r, e.body, historical)
  }

  function LeaseCheck(r: Record, e: Event, now: Option<Stamp>, historical: bool): Verdict<()> {
    if historical then OwnershipFence(r, e.fence) else OwnershipLive(r, e.fence, now)
  }

  /** An event whose attempt is already spelled as the log spells it. */
  function ApplyCanonical(r: Record, e: Event, legacyKey: Option<string>, seen: set<string>,
                          now: Option<Stamp>, historical: bool): Outcome
  {
    var at := Either(e.at, now);
    var key := LogKey(r, e, historical);
    var conflict := if e.body.ProviderEvent() then HandleConflict(r, e) else None;
    var lease := LeaseCheck(r, e, Either(now, at), historical);
    if key.None? || key.value == "" then Rejected(InvalidEvent)
    else if conflict.Some? then
      Rejected(if Terminal(r) then ExecutionTerminal else if lease.Refuse? then lease.code else conflict.value)
    else if key.value in seen then Replayed(key.value)
    else if legacyKey.Some? && legacyKey.value in seen then Replayed(legacyKey.value)
    else if Terminal(r) then Rejected(ExecutionTerminal)
    else if lease.Refuse? then Rejected(lease.code)
    else
      var handled := ApplyByType(r, e, at, historical);
      if handled.Refuse? then Rejected(handled.code)
      else Applied(handled.value.(sequence := handled.value.sequence + 1, updatedAt := at), key.value)
  }

  function ApplyEvent(r: Record, e: Event, seen: set<string>, now: Option<Stamp>, historical: bool): Outcome {
    if e.body.UnknownType? then Rejected(InvalidEvent)
    else if e.body.ProviderEvent() && !historical then
      if AttemptIndex(e.body.attempt).None? then Rejected(InvalidEvent)
      else
        var legacy := if e.body.attempt.value.TextAttempt? then DerivedKey(r, e.body, true) else None;
        ApplyCanonical(r, Canonical(e), legacy, seen, now, historical)
    else ApplyCanonical(r, e, None, seen, now, historical)
  }
}
