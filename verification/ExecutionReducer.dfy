/** The reducer as the source runs it: clone the record, change the clone's fields
    in place, return it; and the loop that folds a journal. Each method is proved
    against the transition rules on values. */
module ExecutionReducer {
  import opened Common
  import opened ExecutionTypes
  import opened ExecutionStore
  import K = ExecutionKernel

  class ExecutionRecord {
    const pins: Pins
    var stage: Stage
    var attempts: seq<AttemptRow>
    var gateResults: seq<GateRow>
    var candidate: Option<Candidate>
    var candidates: seq<Candidate>
    var integration: Option<Integration>
    var escalations: seq<Escalation>
    var owner: Option<Owner>
    var completion: Completion
    var prematureResolution: bool
    var sequence: nat
    var updatedAt: Option<Stamp>
    var releasedAt: Option<Stamp>
    var forcedRelease: Option<ForcedRelease>

    function Value(): Record
      reads this
    {
      Record(pins, stage, attempts, gateResults, candidate, candidates, integration, escalations, owner, completion,
             prematureResolution, sequence, updatedAt, releasedAt, forcedRelease)
    }

    constructor (r: Record)
      ensures Value() == r
    {
      pins, stage, attempts, gateResults := r.pins, r.stage, r.attempts, r.gateResults;
      candidate, candidates, integration, escalations := r.candidate, r.candidates, r.integration, r.escalations;
      owner, completion, prematureResolution := r.owner, r.completion, r.prematureResolution;
      sequence, updatedAt, releasedAt, forcedRelease := r.sequence, r.updatedAt, r.releasedAt, r.forcedRelease;
    }

    // ---------- ownership ----------

    /** Claims never touch the record they were given; the new owner is on the copy. */
    method Claim(worker: string, machine: Option<string>, instance: Option<string>, lease: Stamp, now: Stamp, takeover: bool)
      returns (refusal: Option<Code>, next: ExecutionRecord)
      ensures refusal.Some? ==> K.Claim(Value(), worker, machine, instance, lease, now, takeover) == Refuse(refusal.value)
      ensures refusal.None? ==>
        fresh(next) && K.Claim(Value(), worker, machine, instance, lease, now, takeover) == Accept(next.Value())
    {
      refusal, next := None, this;
      ghost var r := Value();
      if K.Terminal(Value()) {
        return Some(ExecutionTerminal), this;
      }
      var expired := owner.None? || K.LeaseExpiredAt(owner.value, now);
      var sameOwner := owner.Some? && K.SameOwner(owner.value, worker, machine);
      var sameInstance := sameOwner && owner.value.instance == instance;
      if owner.Some? && !expired && !sameOwner {
        return Some(if takeover then LeaseLive else AlreadyOwned), this;
      }
      var fence: nat := 1;
      if owner.Some? {
        fence := if sameInstance && !takeover then owner.value.fence else owner.value.fence + 1;
      }
      assert fence == K.ClaimedFence(r, worker, machine, instance, takeover);
      next := CopyOwnedBy(Some(Owner(worker, machine, instance, lease, fence)), now);
    }

    /** A copy of the record under a new owner. */
    method CopyOwnedBy(o: Option<Owner>, now: Stamp) returns (next: ExecutionRecord)
      ensures fresh(next) && next.Value() == Value().(owner := o, updatedAt := Some(now))
    {
      next := new ExecutionRecord(Value());
      next.owner := o;
      next.updatedAt := Some(now);
    }

    method Release(fence: Option<int>, now: Stamp) returns (refusal: Option<Code>, next: ExecutionRecord)
      ensures refusal.Some? ==> K.Release(Value(), fence, now) == Refuse(refusal.value)
      ensures refusal.None? ==> fresh(next) && K.Release(Value(), fence, now) == Accept(next.Value())
    {
      refusal, next := None, this;
      if stage.Completed? {
        return Some(ExecutionTerminal), this;
      }
      var live := K.OwnershipLive(Value(), fence, Some(now));
      if live.Refuse? {
        return Some(live.code), this;
      }
      next := new ExecutionRecord(Value());
      next.owner := None;
      next.releasedAt := Some(now);
      next.updatedAt := Some(now);
    }

    method Renew(fence: Option<int>, lease: Stamp, now: Stamp) returns (refusal: Option<Code>, next: ExecutionRecord)
      ensures refusal.Some? ==> K.Renew(Value(), fence, lease, now) == Refuse(refusal.value)
      ensures refusal.None? ==> fresh(next) && K.Renew(Value(), fence, lease, now) == Accept(next.Value())
    {
      refusal, next := None, this;
      var live := K.OwnershipLive(Value(), fence, Some(now));
      if live.Refuse? {
        return Some(live.code), this;
      }
      next := CopyOwnedBy(Some(owner.value.(lease := lease)), now);
    }

    // ---------- attempt rows ----------

    method UpsertAttempt(index: int, seed: RowSeed, at: Option<Stamp>) returns (k: nat)
      modifies this`attempts
      ensures attempts == K.Upsert(old(attempts), index, seed, stage, at)
      ensures k == K.Find(attempts, index)
    {
      k := K.Find(attempts, index);
      if k == |attempts| {
        attempts := K.SortRows(attempts + [K.FreshRow(index, seed, stage, at)]);
        k := K.Find(attempts, index);
      }
    }

    method StageRow(b: Body, at: Option<Stamp>) returns (refusal: Option<Code>)
      requires b.StageStarted? || b.StageObserved?
      modifies this
      ensures var spec := if b.StageStarted? then K.ApplyStageStarted(old(Value()), b, at)
                          else K.ApplyStageObserved(old(Value()), b, at);
        if refusal.Some? then spec == Refuse(refusal.value) && Value() == old(Value()) else spec == Accept(Value())
    {
      hide K.Upsert, K.Find, K.NumberOf;
      if b.attempt.None? {
        return Some(InvalidEvent);
      }
      refusal := None;
      ghost var before := Value();
      var index := K.NumberOf(b.attempt.value);
      var k := UpsertAttempt(index, b.row, at);
      RowExists(before.attempts, index, b.row, stage, at);
      if b.StageStarted? {
        attempts := attempts[k := attempts[k].(state := Some("dispatched"), runId := Either(b.row.runId, attempts[k].runId))];
        stage := Implementation;
      } else {
        var row := attempts[k].(state := Either(b.state, attempts[k].state),
                                outcome := Either(b.outcome, attempts[k].outcome),
                                runId := Either(b.row.runId, attempts[k].runId));
        if row.state.Some? && row.state.value in K.SETTLED_STATES {
          row := row.(finishedAt := at);
          if row.state.value == "exhausted" {
            stage := Refused;
          }
        }
        attempts := attempts[k := row];
      }
    }

    /** Write the provider half of an attempt's row, creating the row when it is missing. */
    method SetProvider(index: int, seed: RowSeed, at: Option<Stamp>, p: Provider)
      modifies this`attempts
      ensures Value() == K.WithProvider(old(Value()), index, seed, at, p)
    {
      ghost var was := attempts;
      var k := UpsertAttempt(index, seed, at);
      RowExists(was, index, seed, stage, at);
      attempts := attempts[k := attempts[k].(provider := Some(p))];
    }

    method ApplyAttempt(e: Event, at: Option<Stamp>, historical: bool) returns (refusal: Option<Code>)
      requires e.body.ProviderEvent()
      modifies this`attempts
      ensures var spec := K.ApplyAttempt(old(Value()), e, at, historical);
        if refusal.Some? then spec == Refuse(refusal.value) && Value() == old(Value()) else spec == Accept(Value())
    {
      if e.body.attempt.None? || K.NumberOf(e.body.attempt.value) < 1 {
        return Some(InvalidEvent);
      }
      var index := K.NumberOf(e.body.attempt.value);
      if e.body.AttemptSubmitting? {
        refusal := Submitting(e, index, at);
      } else if e.body.AttemptSubmitted? {
        refusal := Submitted(e, index, at, historical);
      } else {
        refusal := Observed(e, index, at);
      }
    }

    method Submitting(e: Event, index: int, at: Option<Stamp>) returns (refusal: Option<Code>)
      requires e.body.AttemptSubmitting?
      modifies this`attempts
      ensures var spec := K.ApplySubmitting(old(Value()), e, index, at);
        if refusal.Some? then spec == Refuse(refusal.value) && Value() == old(Value()) else spec == Accept(Value())
    {
      var existing := K.ProviderOf(attempts, index);
      var key := K.SubmitKeyOf(e);
      if !K.ValidProviderId(e.body.provider) || !K.ValidSubmitKey(key) || !e.body.request.JObj? {
        return Some(InvalidEvent);
      }
      if existing.Some? {
        return Some(if existing.value.handle != JNull then InvalidEvent else AttemptHandleConflict);
      }
      SetProvider(index, e.body.row, at,
                  Provider(e.body.provider, JNull, key.value, Some(e.body.request), None, at, None, None, None, None, 0));
      refusal := None;
    }

    method Submitted(e: Event, index: int, at: Option<Stamp>, historical: bool) returns (refusal: Option<Code>)
      requires e.body.AttemptSubmitted?
      modifies this`attempts
      ensures var spec := K.ApplySubmitted(old(Value()), e, index, at, historical);
        if refusal.Some? then spec == Refuse(refusal.value) && Value() == old(Value()) else spec == Accept(Value())
    {
      var existing := K.ProviderOf(attempts, index);
      var key := K.SubmitKeyOf(e);
      if !K.ValidProviderId(e.body.provider) || !K.ValidHandle(e.body.handle) || !K.ValidSubmitKey(key)
         || (e.body.env != JNull && !e.body.env.JObj?) {
        return Some(InvalidEvent);
      }
      if existing.Some? && (existing.value.id != e.body.provider || existing.value.submitKey != key.value) {
        return Some(AttemptHandleConflict);
      }
      if existing.None? && !historical {
        return Some(InvalidEvent);
      }
      var p := Provider(e.body.provider, JNull, key.value, None, None, None, None, None, None, None, 0);
      if existing.Some? {
        p := existing.value;
      }
      p := p.(handle := e.body.handle, env := if e.body.env != JNull then Some(e.body.env) else None,
              submittedAt := Either(e.body.submittedAt, at));
      SetProvider(index, e.body.row, at, p);
      refusal := None;
    }

    method Observed(e: Event, index: int, at: Option<Stamp>) returns (refusal: Option<Code>)
      requires e.body.AttemptObserved?
      modifies this`attempts
      ensures var spec := K.ApplyObserved(old(Value()), e, index, at);
        if refusal.Some? then spec == Refuse(refusal.value) && Value() == old(Value()) else spec == Accept(Value())
    {
      var k := K.Find(attempts, index);
      if k == |attempts| || attempts[k].provider.None? || attempts[k].provider.value.handle == JNull || e.body.observed == "" {
        return Some(InvalidEvent);
      }
      var p := attempts[k].provider.value;
      if p.lastState.Some? && p.lastState.value in K.TERMINAL_OBSERVED {
        return Some(InvalidEvent);
      }
      p := p.(lastState := Some(e.body.observed), lastObservedAt := Either(e.body.observedAt, at),
              lastDetail := e.body.detail, observedSeq := p.observedSeq + 1);
      attempts := attempts[k := attempts[k].(provider := Some(p))];
      refusal := None;
    }

    // ---------- candidates ----------

    /** The re-pin's sweep over the gate rows, in place. */
    method BindVerdicts(tip: Option<string>)
      modifies this`gateResults
      ensures gateResults == K.BindVerdicts(old(gateResults), tip)
    {
      ghost var was := gateResults;
      for i := 0 to |gateResults|
        invariant |gateResults| == |was|
        invariant forall j | 0 <= j < i :: gateResults[j] == K.BindVerdicts(was, tip)[j]
        invariant forall j | i <= j < |was| :: gateResults[j] == was[j]
      {
        if gateResults[i].candidateId.None? && gateResults[i].state.Some? {
          gateResults := gateResults[i := gateResults[i].(candidateId := tip)];
        }
      }
    }

    method ResubmitTip(c: Candidate)
      requires candidate.Some?
      modifies this`candidate, this`candidates
      ensures Value() == K.SameTip(old(Value()), c)
    {
      var seen := candidate.value.commitsSeen;
      if c.commit != candidate.value.commit && c.commit !in seen {
        seen := seen + [c.commit];
      }
      var merged := candidate.value.(commitsSeen := seen);
      candidate := Some(merged);
      var i := K.FindCandidate(candidates, IdText(c.id));
      candidates := if i < |candidates| then candidates[i := merged] else candidates + [merged];
    }

    method ReplaceTip(c: Candidate, invalidate: bool)
      modifies this`candidate, this`candidates, this`gateResults, this`integration
      ensures Value() == K.NewTip(old(Value()), c, invalidate)
    {
      var entry := c.(supersedes := if candidate.Some? then Some(IdText(candidate.value.id)) else c.supersedes);
      if candidate.Some? && invalidate {
        BindVerdicts(candidate.value.id);
        integration := None;
      }
      candidate := Some(entry);
      candidates := candidates + [entry];
    }

    method CloseProducer(b: Body, at: Option<Stamp>)
      requires b.Pin() && b.pinned.Some?
      modifies this`prematureResolution, this`attempts, this`stage
      ensures Value() == K.SettlePin(old(Value()), b, at)
    {
      if b.premature {
        prematureResolution := true;
      }
      var producer := b.pinned.value.producedBy;
      var k := if producer.Some? then K.Find(attempts, producer.value) else |attempts|;
      if k < |attempts| {
        attempts := attempts[k := attempts[k].(state := Some("candidate"), outcome := Some("candidate"),
                                               finishedAt := Either(attempts[k].finishedAt, at))];
      }
      stage := Gating;
    }

    method PinCandidate(b: Body, at: Option<Stamp>, marked: bool, historical: bool) returns (refusal: Option<Code>)
      requires b.Pin()
      modifies this
      ensures var spec := K.PinCandidate(old(Value()), b, at, marked, historical);
        if refusal.Some? then spec == Refuse(refusal.value) && Value() == old(Value()) else spec == Accept(Value())
    {
      hide K.SameTip, K.NewTip, K.SettlePin, K.FindCandidate, K.ValidTime;
      if b.pinned.None? || b.pinned.value.commit == "" || b.pinned.value.tree == "" {
        return Some(InvalidEvent);
      }
      var c := b.pinned.value;
      if !historical && c.reference.Some? && c.reference.value.verifiedAt.Some? && !K.ValidTime(c.reference.value.verifiedAt) {
        return Some(InvalidEvent);
      }
      var sameId := candidate.Some? && IdText(candidate.value.id) == IdText(c.id);
      if !historical && !sameId && K.FindCandidate(candidates, IdText(c.id)) < |candidates| {
        return Some(CandidateConflict);
      }
      if sameId {
        ResubmitTip(c);
      } else {
        if candidate.Some? && integration.Some? && integration.value.state.Landed? {
          return Some(CandidateConflict);
        }
        if candidate.Some? && Either(c.supersedes, b.supersedes) != Some(IdText(candidate.value.id)) {
          return Some(CandidateConflict);
        }
        ReplaceTip(c, !historical || marked);
      }
      CloseProducer(b, at);
      refusal := None;
    }

    method PublishCandidate(b: Body, at: Option<Stamp>, historical: bool) returns (refusal: Option<Code>)
      requires b.CandidatePublished?
      modifies this
      ensures var spec := K.ApplyPublished(old(Value()), b, at, historical);
        if refusal.Some? then spec == Refuse(refusal.value) && Value() == old(Value()) else spec == Accept(Value())
    {
      if b.candidateId.None? {
        return Some(InvalidEvent);
      }
      var k := K.FindCandidate(candidates, b.candidateId.value);
      if k == |candidates| {
        return Some(UnknownCandidate);
      }
      var entry := candidates[k];
      if historical {
        entry := entry.(reference := Either(b.reference, entry.reference), publishedAt := Either(b.publishedAt, at),
                        verifiedAt := Either(b.verifiedAt, entry.verifiedAt));
      } else {
        var reference := K.NormalReference(b);
        if !K.ValidTime(reference.verifiedAt) {
          return Some(InvalidEvent);
        }
        if K.PublishedCandidate(Some(entry)) && entry.reference != Some(reference) {
          return Some(CandidateConflict);
        }
        entry := entry.(reference := Some(reference), publishedAt := Either(b.publishedAt, at), verifiedAt := reference.verifiedAt);
      }
      candidates := candidates[k := entry];
      if candidate.Some? && IdText(candidate.value.id) == b.candidateId.value {
        candidate := Some(entry);
      }
      refusal := None;
    }

    // ---------- gates ----------

    method Gate(e: Event, at: Option<Stamp>, historical: bool) returns (refusal: Option<Code>)
      requires e.body.GateStarted? || e.body.GateSettled?
      modifies this
      ensures var spec := if e.body.GateStarted? then K.ApplyGateStarted(old(Value()), e.body, e.marked, historical)
                          else K.ApplyGateSettled(old(Value()), e.body, at, historical);
        if refusal.Some? then spec == Refuse(refusal.value) && Value() == old(Value()) else spec == Accept(Value())
    {
      var k := K.FindGate(gateResults, e.body.gateId);
      if k == |gateResults| {
        return Some(UnknownGate);
      }
      if e.body.GateSettled? && e.body.verdict.None? {
        return Some(InvalidEvent);
      }
      if !K.Judgeable(Value(), historical) {
        return Some(NoCandidate);
      }
      var g := gateResults[k];
      if e.body.GateStarted? {
        if !historical || e.marked {
          g := g.(state := None, candidateId := None);
        }
        g := g.(attempt := K.NumberOr(e.body.attempt, g.attempt + 1));
        stage := Gating;
      } else {
        if !historical && |candidates| > 1 && e.body.candidateId.None? {
          return Some(InvalidEvent);
        }
        if e.body.candidateId.Some? && K.FindCandidate(candidates, e.body.candidateId.value) == |candidates| {
          return Some(UnknownCandidate);
        }
        g := g.(state := e.body.verdict, attempt := K.NumberOr(e.body.attempt, g.attempt), settledAt := at,
                candidateId := Either(e.body.candidateId, candidate.value.id));
      }
      gateResults := gateResults[k := g];
      refusal := None;
    }

    // ---------- one event ----------

    method ApplyByType(e: Event, at: Option<Stamp>, historical: bool) returns (refusal: Option<Code>)
      modifies this
      ensures var spec := K.ApplyByType(old(Value()), e, at, historical);
        if refusal.Some? then spec == Refuse(refusal.value) && Value() == old(Value()) else spec == Accept(Value())
    {
      refusal := None;
      if e.body.StageStarted? || e.body.StageObserved? {
        refusal := StageRow(e.body, at);
      } else if e.body.Pin() {
        refusal := PinCandidate(e.body, at, e.marked, historical);
      } else if e.body.CandidatePublished? {
        refusal := PublishCandidate(e.body, at, historical);
      } else if e.body.GateStarted? || e.body.GateSettled? {
        refusal := Gate(e, at, historical);
      } else if e.body.ProviderEvent() {
        refusal := ApplyAttempt(e, at, historical);
      } else {
        refusal := Progress(e.body, at, historical);
      }
    }

    /** Rescue, integration, escalation and completion. */
    method Progress(b: Body, at: Option<Stamp>, historical: bool) returns (refusal: Option<Code>)
      requires b.RescueStarted? || b.IntegrationStarted? || b.IntegrationSettled? || b.EscalationFiled?
               || b.CompletionWritten? || b.UnknownType?
      modifies this
      ensures forall e: Event | e.body == b :: var spec := K.ApplyByType(old(Value()), e, at, historical);
        if refusal.Some? then spec == Refuse(refusal.value) && Value() == old(Value()) else spec == Accept(Value())
    {
      hide K.GatesAccepted, K.BoundaryReached, K.NumberOr, K.ApplyStageStarted, K.ApplyStageObserved, K.PinCandidate,
           K.ApplyPublished, K.ApplyGateStarted, K.ApplyGateSettled, K.ApplyAttempt;
      refusal := None;
      match b {
        case RescueStarted(_) =>
          if candidate.None? {
            return Some(NoCandidate);
          }
          stage := Gating;
        case IntegrationStarted(a) =>
          if !K.GatesAccepted(Value(), historical) {
            return Some(GatesUnsettled);
          }
          integration := Some(Integration(Running, K.NumberOr(a, 1), at, None, None));
          stage := Integrating;
        case IntegrationSettled(_, result, ref, commit) =>
          if integration.None? || result.None? || result.value.Running? {
            return Some(InvalidEvent);
          }
          integration := Some(integration.value.(state := result.value, at := at, ref := ref, commit := commit));
        case EscalationFiled(node, reason, terminal) =>
          if node.None? || node.value == "" {
            return Some(InvalidEvent);
          }
          escalations := escalations + [Escalation(node.value, reason, at)];
          if terminal {
            stage := Refused;
          }
        case CompletionWritten(resolver) =>
          if !K.BoundaryReached(Value(), historical) {
            return Some(BoundaryNotReached);
          }
          completion := completion.(writtenAt := at, resolver := resolver);
          stage := Completed;
        case UnknownType =>
          return Some(InvalidEvent);
      }
    }

    /** Apply one event to a copy. The record it was called on is never written. */
    method ApplyEvent(e: Event, seen: set<string>, now: Option<Stamp>, historical: bool)
      returns (outcome: Outcome, next: ExecutionRecord)
      ensures outcome == K.ApplyEvent(Value(), e, seen, now, historical)
      ensures if outcome.Applied? then fresh(next) && next.Value() == outcome.record else next == this
    {
      hide K.ApplyCanonical, K.DerivedKey;
      next := this;
      if e.body.UnknownType? {
        return Rejected(InvalidEvent), this;
      }
      if e.body.ProviderEvent() && !historical {
        if K.AttemptIndex(e.body.attempt).None? {
          return Rejected(InvalidEvent), this;
        }
        var legacyKey := None;
        if e.body.attempt.value.TextAttempt? {
          legacyKey := K.DerivedKey(Value(), e.body, true);
        }
        outcome, next := ApplyCanonical(K.Canonical(e), legacyKey, seen, now, historical);
      } else {
        outcome, next := ApplyCanonical(e, None, seen, now, historical);
      }
    }

    method ApplyCanonical(e: Event, legacyKey: Option<string>, seen: set<string>, now: Option<Stamp>, historical: bool)
      returns (outcome: Outcome, next: ExecutionRecord)
      ensures outcome == K.ApplyCanonical(Value(), e, legacyKey, seen, now, historical)
      ensures if outcome.Applied? then fresh(next) && next.Value() == outcome.record else next == this
    {
      hide K.ApplyByType, K.LogKey, K.LeaseCheck, K.HandleConflict, K.Terminal;
      next := this;
      ghost var r := Value();
      var at := Either(e.at, now);
      var key := K.LogKey(Value(), e, historical);
      if key.None? || key.value == "" {
        return Rejected(InvalidEvent), this;
      }
      var lease := K.LeaseCheck(Value(), e, Either(now, at), historical);
      var conflict := if e.body.ProviderEvent() then K.HandleConflict(Value(), e) else None;
      if conflict.Some? {
        return Rejected(if K.Terminal(Value()) then ExecutionTerminal
                        else if lease.Refuse? then lease.code else conflict.value), this;
      }
      if key.value in seen {
        return Replayed(key.value), this;
      }
      if legacyKey.Some? && legacyKey.value in seen {
        return Replayed(legacyKey.value), this;
      }
      if K.Terminal(Value()) {
        return Rejected(ExecutionTerminal), this;
      }
      if lease.Refuse? {
        return Rejected(lease.code), this;
      }
      var refusal, clone := HandleOnCopy(e, at, historical);
      if refusal.Some? {
        return Rejected(refusal.value), this;
      }
      return Applied(clone.Value(), key.value), clone;
    }

    /** The event's handler on a copy, which then counts it and takes its time. */
    method HandleOnCopy(e: Event, at: Option<Stamp>, historical: bool)
      returns (refusal: Option<Code>, next: ExecutionRecord)
      ensures var spec := K.ApplyByType(Value(), e, at, historical);
        if refusal.Some? then spec == Refuse(refusal.value)
        else fresh(next) && spec.Accept?
             && next.Value() == spec.value.(sequence := spec.value.sequence + 1, updatedAt := at)
    {
      hide K.ApplyByType;
      next := new ExecutionRecord(Value());
      refusal := next.ApplyByType(e, at, historical);
      if refusal.None? {
        next.sequence := next.sequence + 1;
        next.updatedAt := at;
      }
    }
  }

  /** The journal fold of the kernel, as its loop runs it. */
  method RebuildFromEvents(journal: seq<Row>) returns (record: Option<ExecutionRecord>)
    ensures record.None? ==> ExecutionStore.RebuildFromEvents(journal) == None
    ensures record.Some? ==> ExecutionStore.RebuildFromEvents(journal) == Some(record.value.Value())
  {
    var genesis := FindGenesis(journal);
    if genesis == |journal| {
      return None;
    }
    ghost var start := Folded(InitExecution(journal[genesis].spec), {});
    var current := new ExecutionRecord(InitExecution(journal[genesis].spec));
    var seen: set<string> := {};
    for i := 0 to |journal|
      invariant SkipFoldAll(start, journal[..i]) == Folded(current.Value(), seen)
    {
      assert journal[..i + 1][..i] == journal[..i];
      match journal[i] {
        case Opened(_) =>
        case OwnershipChanged(_, _, _, _, _) =>
          current := new ExecutionRecord(FoldOwnership(current.Value(), journal[i]));
        case Recorded(e, _) =>
          var outcome, next := current.ApplyEvent(e, seen, None, true);
          if outcome.Applied? {
            current := next;
            seen := seen + {outcome.key};
          }
      }
    }
    assert journal[..|journal|] == journal;
    return Some(current);
  }

  lemma {:induction false} RowExists(rows: seq<AttemptRow>, index: int, seed: RowSeed, stage: Stage, at: Option<Stamp>)
    ensures K.Find(K.Upsert(rows, index, seed, stage, at), index) < |K.Upsert(rows, index, seed, stage, at)|
  {
    if K.Find(rows, index) == |rows| {
      var all := rows + [K.FreshRow(index, seed, stage, at)];
      SortKeepsRows(all);
      assert all[|rows|] in K.SortRows(all);
    }
  }

  lemma {:induction false} InsertKeepsRows(rows: seq<AttemptRow>, row: AttemptRow)
    ensures forall x :: x in K.InsertRow(rows, row) <==> x in rows || x == row
  {
    if rows != [] && rows[|rows| - 1].index > row.index {
      InsertKeepsRows(rows[..|rows| - 1], row);
      assert rows == rows[..|rows| - 1] + [rows[|rows| - 1]];
    }
  }

  lemma {:induction false} SortKeepsRows(rows: seq<AttemptRow>)
    ensures forall x :: x in K.SortRows(rows) <==> x in rows
  {
    if rows != [] {
      SortKeepsRows(rows[..|rows| - 1]);
      InsertKeepsRows(K.SortRows(rows[..|rows| - 1]), rows[|rows| - 1]);
      assert rows == rows[..|rows| - 1] + [rows[|rows| - 1]];
    }
  }
}
