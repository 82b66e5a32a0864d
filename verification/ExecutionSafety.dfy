/** What every run keeps: the candidate chain, the gates, the completion boundary. */
module ExecutionSafety {
  import opened Common
  import opened ExecutionTypes
  import opened ExecutionKernel
  import opened ExecutionStore

  // ---------- the candidate chain ----------

  ghost predicate DistinctIds(chain: seq<Candidate>) {
    forall i, j | 0 <= i < j < |chain| :: IdText(chain[i].id) != IdText(chain[j].id)
  }

  /** Each later candidate names the one before it in `supersedes`. */
  ghost predicate Linked(chain: seq<Candidate>) {
    forall i | 0 < i < |chain| :: chain[i].supersedes == Some(IdText(chain[i - 1].id))
  }

  /** Distinct ids, linked, and the tip is the last entry. */
  ghost predicate ChainLaw(r: Record) {
    && DistinctIds(r.candidates)
    && Linked(r.candidates)
    && (r.candidate.None? <==> r.candidates == [])
    && (r.candidate.Some? ==> r.candidates[|r.candidates| - 1] == r.candidate.value)
  }

  /** Every verdict names a candidate of the chain, and none is given before one exists. */
  ghost predicate VerdictsOnChain(r: Record) {
    forall g | g in r.gateResults ::
      && (g.candidateId.Some? ==> FindCandidate(r.candidates, g.candidateId.value) < |r.candidates|)
      && (g.state.Some? ==> r.candidate.Some?)
  }

  /** What a completed record must show, read off the record alone. */
  ghost predicate CompletedProperly(r: Record) {
    && r.candidate.Some?
    && PublishedCandidate(r.candidate)
    && (forall g | g in r.gateResults ::
          && (g.state == Some(Passed) || g.state == Some(Skipped))
          && (GateOnTip(r, g) || OptedOut(r.pins.gates, g.id)))
    && (r.completion.boundary.AtIntegration? ==> r.integration.Some? && r.integration.value.state.Landed?)
    && r.releasedAt.None?
  }

  ghost predicate SafeRecord(r: Record) {
    && ChainLaw(r)
    && VerdictsOnChain(r)
    && (r.stage.Completed? ==> CompletedProperly(r))
  }

  // ---------- the chain under a pin ----------

  lemma FoundIff(chain: seq<Candidate>, id: string)
    ensures FindCandidate(chain, id) < |chain| <==> exists i | 0 <= i < |chain| :: IdText(chain[i].id) == id
  {
  }

  lemma TipIsFoundLast(r: Record, c: Candidate)
    requires ChainLaw(r) && r.candidate.Some? && IdText(r.candidate.value.id) == IdText(c.id)
    ensures FindCandidate(r.candidates, IdText(c.id)) == |r.candidates| - 1
  {
  }

  /** Replacing the last entry by one with its id and its link keeps the chain. */
  lemma MergedChainKeeps(chain: seq<Candidate>, merged: seq<Candidate>)
    requires |merged| == |chain| > 0 && DistinctIds(chain) && Linked(chain)
    requires merged == chain[|chain| - 1 := merged[|chain| - 1]]
    requires merged[|chain| - 1].id == chain[|chain| - 1].id && merged[|chain| - 1].supersedes == chain[|chain| - 1].supersedes
    ensures DistinctIds(merged) && Linked(merged)
    ensures forall i | 0 <= i < |chain| :: merged[i].id == chain[i].id
  {
  }

  lemma SameTipKeepsChain(r: Record, c: Candidate)
    requires ChainLaw(r) && r.candidate.Some? && IdText(r.candidate.value.id) == IdText(c.id)
    ensures ChainLaw(SameTip(r, c))
    ensures |SameTip(r, c).candidates| == |r.candidates|
    ensures forall i | 0 <= i < |r.candidates| :: SameTip(r, c).candidates[i].id == r.candidates[i].id
  {
    hide Linked, DistinctIds;
    var i := FindCandidate(r.candidates, IdText(c.id));
    TipIsFoundLast(r, c);
    MergedChainKeeps(r.candidates, SameTip(r, c).candidates);
  }

  lemma NewTipKeepsChain(r: Record, c: Candidate, invalidate: bool)
    requires ChainLaw(r) && FindCandidate(r.candidates, IdText(c.id)) == |r.candidates|
    ensures ChainLaw(NewTip(r, c, invalidate))
  {
  }

  lemma SettlePinKeepsChain(r: Record, b: Body, at: Option<Stamp>)
    requires b.Pin() && b.pinned.Some?
    ensures var s := SettlePin(r, b, at);
      s.candidates == r.candidates && s.candidate == r.candidate && s.gateResults == r.gateResults
      && s.integration == r.integration && s.pins == r.pins && s.stage == Gating
  {
  }

  lemma {:induction false} PinKeepsChain(r: Record, b: Body, at: Option<Stamp>, marked: bool)
    requires b.Pin() && ChainLaw(r) && PinCandidate(r, b, at, marked, false).Accept?
    ensures ChainLaw(PinCandidate(r, b, at, marked, false).value)
  {
    var c := b.pinned.value;
    if r.candidate.Some? && IdText(r.candidate.value.id) == IdText(c.id) {
      SameTipKeepsChain(r, c);
      SettlePinKeepsChain(SameTip(r, c), b, at);
    } else {
      NewTipKeepsChain(r, c, true);
      SettlePinKeepsChain(NewTip(r, c, true), b, at);
    }
  }

  lemma PublishedKeepsChain(r: Record, b: Body, at: Option<Stamp>)
    requires b.CandidatePublished? && ChainLaw(r) && ApplyPublished(r, b, at, false).Accept?
    ensures var s := ApplyPublished(r, b, at, false).value;
      ChainLaw(s) && s.gateResults == r.gateResults && s.candidate.Some? == r.candidate.Some?
      && |s.candidates| == |r.candidates|
      && forall i | 0 <= i < |r.candidates| :: s.candidates[i].id == r.candidates[i].id
  {
    var k := FindCandidate(r.candidates, b.candidateId.value);
    var s := ApplyPublished(r, b, at, false).value;
    assert s.candidates == r.candidates[k := s.candidates[k]];
  }

  // ---------- verdicts under each event ----------

  /** Verdicts stay on the chain when the chain keeps its ids or grows at the end. */
  lemma ChainGrowthKeepsVerdicts(r: Record, s: Record)
    requires VerdictsOnChain(r) && s.gateResults == r.gateResults
    requires |r.candidates| <= |s.candidates|
    requires forall i | 0 <= i < |r.candidates| :: IdText(s.candidates[i].id) == IdText(r.candidates[i].id)
    requires r.candidate.Some? ==> s.candidate.Some?
    ensures VerdictsOnChain(s)
  {
    forall g | g in s.gateResults && g.candidateId.Some?
      ensures FindCandidate(s.candidates, g.candidateId.value) < |s.candidates|
    {
      var k := FindCandidate(r.candidates, g.candidateId.value);
      assert k < |r.candidates|;
      FoundIff(s.candidates, g.candidateId.value);
    }
  }

  lemma NewTipKeepsVerdicts(r: Record, c: Candidate)
    requires ChainLaw(r) && VerdictsOnChain(r)
    ensures VerdictsOnChain(NewTip(r, c, true))
  {
    var s := NewTip(r, c, true);
    forall g | g in s.gateResults
      ensures g.candidateId.Some? ==> FindCandidate(s.candidates, g.candidateId.value) < |s.candidates|
    {
      var i :| 0 <= i < |s.gateResults| && s.gateResults[i] == g;
      var was := r.gateResults[i];
      if g.candidateId.Some? {
        var id := g.candidateId.value;
        if was.candidateId == g.candidateId {
          var k := FindCandidate(r.candidates, id);
          assert k < |r.candidates| && s.candidates[k] == r.candidates[k];
        } else {
          assert s.candidates[|r.candidates| - 1] == r.candidate.value;
        }
        FoundIff(s.candidates, id);
      }
    }
  }

  lemma PinKeepsVerdicts(r: Record, b: Body, at: Option<Stamp>, marked: bool)
    requires b.Pin() && ChainLaw(r) && VerdictsOnChain(r) && PinCandidate(r, b, at, marked, false).Accept?
    ensures VerdictsOnChain(PinCandidate(r, b, at, marked, false).value)
  {
    var c := b.pinned.value;
    if r.candidate.Some? && IdText(r.candidate.value.id) == IdText(c.id) {
      SameTipKeepsChain(r, c);
      SettlePinKeepsChain(SameTip(r, c), b, at);
      ChainGrowthKeepsVerdicts(r, SameTip(r, c));
    } else {
      NewTipKeepsVerdicts(r, c);
      SettlePinKeepsChain(NewTip(r, c, true), b, at);
    }
  }

  lemma GateSettledKeepsVerdicts(r: Record, b: Body, at: Option<Stamp>)
    requires b.GateSettled? && ChainLaw(r) && VerdictsOnChain(r) && ApplyGateSettled(r, b, at, false).Accept?
    ensures VerdictsOnChain(ApplyGateSettled(r, b, at, false).value)
  {
    var s := ApplyGateSettled(r, b, at, false).value;
    var k := FindGate(r.gateResults, b.gateId);
    var judged := s.gateResults[k].candidateId;
    if judged.Some? && b.candidateId.None? {
      assert IdText(r.candidates[|r.candidates| - 1].id) == judged.value;
      FoundIff(r.candidates, judged.value);
    }
  }

  lemma AttemptEventsFrame(r: Record, e: Event, at: Option<Stamp>)
    requires e.body.ProviderEvent() && ApplyAttempt(r, e, at, false).Accept?
    ensures ApplyAttempt(r, e, at, false).value == r.(attempts := ApplyAttempt(r, e, at, false).value.attempts)
  {
  }

  /** The events that leave candidates and verdicts alone, and never complete. */
  predicate Bystander(b: Body) {
    b.StageStarted? || b.StageObserved? || b.RescueStarted? || b.IntegrationStarted? || b.IntegrationSettled?
    || b.EscalationFiled? || b.ProviderEvent()
  }

  lemma BystanderFrame(r: Record, e: Event, at: Option<Stamp>)
    requires Bystander(e.body) && ApplyByType(r, e, at, false).Accept?
    ensures var s := ApplyByType(r, e, at, false).value;
      s.candidate == r.candidate && s.candidates == r.candidates && s.gateResults == r.gateResults
      && (s.stage.Completed? ==> r.stage.Completed?)
  {
    if e.body.ProviderEvent() {
      AttemptEventsFrame(r, e, at);
    }
  }

  lemma CompletionMeetsBoundary(r: Record, e: Event, at: Option<Stamp>)
    requires e.body.CompletionWritten? && !Terminal(r) && ApplyByType(r, e, at, false).Accept?
    ensures var s := ApplyByType(r, e, at, false).value;
      CompletedProperly(s) && s.candidate == r.candidate && s.candidates == r.candidates && s.gateResults == r.gateResults
  {
    var s := ApplyByType(r, e, at, false).value;
    assert GatesAccepted(r, false);
    forall g | g in s.gateResults
      ensures (g.state == Some(Passed) || g.state == Some(Skipped)) && (GateOnTip(s, g) || OptedOut(s.pins.gates, g.id))
    {
      assert GateAccepted(r, g, false);
    }
  }

  lemma SafeParts(r: Record)
    requires SafeRecord(r)
    ensures ChainLaw(r) && VerdictsOnChain(r)
  {
  }

  lemma SameChain(r: Record, s: Record)
    requires ChainLaw(r) && s.candidate == r.candidate && s.candidates == r.candidates
    ensures ChainLaw(s)
  {
  }

  lemma {:induction false} EventKeepsChain(r: Record, e: Event, at: Option<Stamp>)
    requires SafeRecord(r) && !Terminal(r) && ApplyByType(r, e, at, false).Accept?
    ensures ChainLaw(ApplyByType(r, e, at, false).value)
  {
    hide PinCandidate, ApplyPublished, ApplyAttempt, SafeRecord, ChainLaw, ApplyStageStarted, ApplyStageObserved;
    SafeParts(r);
    if e.body.Pin() {
      PinKeepsChain(r, e.body, at, e.marked);
    } else if e.body.CandidatePublished? {
      PublishedKeepsChain(r, e.body, at);
    } else {
      if Bystander(e.body) {
        BystanderFrame(r, e, at);
      }
      SameChain(r, ApplyByType(r, e, at, false).value);
    }
  }

  lemma EventKeepsVerdicts(r: Record, e: Event, at: Option<Stamp>)
    requires SafeRecord(r) && !Terminal(r) && ApplyByType(r, e, at, false).Accept?
    ensures VerdictsOnChain(ApplyByType(r, e, at, false).value)
  {
    hide PinCandidate, ApplyPublished, ApplyGateSettled, ApplyAttempt, FindCandidate, ChainLaw, ApplyStageStarted, ApplyStageObserved, CompletedProperly;
    if e.body.Pin() {
      PinKeepsVerdicts(r, e.body, at, e.marked);
    } else if e.body.CandidatePublished? {
      PublishedKeepsChain(r, e.body, at);
      ChainGrowthKeepsVerdicts(r, ApplyByType(r, e, at, false).value);
    } else if e.body.GateSettled? {
      GateSettledKeepsVerdicts(r, e.body, at);
    } else if Bystander(e.body) {
      BystanderFrame(r, e, at);
    }
  }

  /** The only event that completes a record meets the pinned boundary. */
  lemma {:induction false} EventKeepsCompletion(r: Record, e: Event, at: Option<Stamp>)
    requires SafeRecord(r) && !Terminal(r) && ApplyByType(r, e, at, false).Accept?
    ensures ApplyByType(r, e, at, false).value.stage.Completed? ==> CompletedProperly(ApplyByType(r, e, at, false).value)
  {
    hide ApplyAttempt, ChainLaw, VerdictsOnChain, CompletedProperly, ApplyStageStarted, ApplyStageObserved, SameTip, NewTip;
    if e.body.CompletionWritten? {
      CompletionMeetsBoundary(r, e, at);
    } else if Bystander(e.body) {
      BystanderFrame(r, e, at);
    }
  }

  lemma OwnershipKeepsSafety(r: Record, s: Record)
    requires SafeRecord(r)
    requires s == r.(owner := s.owner, updatedAt := s.updatedAt, releasedAt := s.releasedAt, forcedRelease := s.forcedRelease,
                     sequence := s.sequence)
    requires r.stage.Completed? ==> s.releasedAt == r.releasedAt
    ensures SafeRecord(s)
  {
  }

  lemma {:induction false} EventDoorKeepsSafety(sys: System, caller: Caller, fence: Option<int>, event: Event, now: Stamp)
    requires SafeRecord(sys.record)
    ensures SafeRecord(EventDoor(sys, caller, fence, event, now).record)
  {
    var r := sys.record;
    if EventDoor(sys, caller, fence, event, now) != sys {
      var a := Admit(event, fence, now).value;
      var e := if a.body.ProviderEvent() then Canonical(a) else a;
      var at := Either(e.at, Some(now));
      var s := ApplyByType(r, e, at, false).value;
      EventKeepsChain(r, e, at);
      EventKeepsVerdicts(r, e, at);
      EventKeepsCompletion(r, e, at);
      OwnershipKeepsSafety(s, EventDoor(sys, caller, fence, event, now).record);
    }
  }

  lemma {:induction false} StepKeepsSafety(sys: System, a: Action, now: Stamp)
    requires SafeRecord(sys.record)
    ensures SafeRecord(Step(sys, a, now).record)
  {
    if a.DoEvent? {
      EventDoorKeepsSafety(sys, a.caller, a.fence, a.event, now);
    } else {
      OwnershipKeepsSafety(sys.record, Step(sys, a, now).record);
    }
  }

  lemma {:induction false} RunIsSafe(s: Spec, calls: Calls)
    ensures SafeRecord(Run(s, calls).record)
  {
    if calls != [] {
      RunIsSafe(s, calls[..|calls| - 1]);
      StepKeepsSafety(Run(s, calls[..|calls| - 1]), calls[|calls| - 1].0, calls[|calls| - 1].1);
    }
  }

  /** Completion safety: whenever a run's record is completed, its tip is
      published, every gate passed or was skipped on that tip (or opted out of the
      re-judge), and the candidate landed when the boundary is integration. */
  lemma {:induction false} CompletionIsEarned(s: Spec, calls: Calls)
    requires Run(s, calls).record.stage.Completed?
    ensures CompletedProperly(Run(s, calls).record)
  {
    RunIsSafe(s, calls);
  }

  /** The chain law on every reachable record. */
  lemma {:induction false} ChainLawOverRuns(s: Spec, calls: Calls)
    ensures ChainLaw(Run(s, calls).record)
  {
    RunIsSafe(s, calls);
  }

  /** A re-pin: an accepted call that replaced one tip by a candidate with another id. */
  ghost predicate Repinned(before: Record, after: Record) {
    before.candidate.Some? && after.candidate.Some? && IdText(before.candidate.value.id) != IdText(after.candidate.value.id)
  }

  lemma NewTipInvalidates(r: Record, c: Candidate)
    requires r.candidate.Some? && ChainLaw(r) && VerdictsOnChain(r)
    requires FindCandidate(r.candidates, IdText(c.id)) == |r.candidates|
    ensures var s := NewTip(r, c, true);
      forall g | g in s.gateResults :: GateAccepted(s, g, false) ==> OptedOut(s.pins.gates, g.id)
  {
    var s := NewTip(r, c, true);
    forall g | g in s.gateResults
      ensures !GateOnTip(s, g)
    {
      var i :| 0 <= i < |s.gateResults| && s.gateResults[i] == g;
      if r.gateResults[i].candidateId.Some? {
        FoundIff(r.candidates, r.gateResults[i].candidateId.value);
      } else if g.candidateId.Some? {
        assert r.candidates[|r.candidates| - 1] == r.candidate.value;
      }
    }
  }

  /** An accepted pin that changes the tip went down the new-tip branch, past its checks. */
  lemma RepinIsNewTip(r: Record, b: Body, at: Option<Stamp>, marked: bool)
    requires b.Pin() && PinCandidate(r, b, at, marked, false).Accept?
    requires Repinned(r, PinCandidate(r, b, at, marked, false).value)
    ensures PinCandidate(r, b, at, marked, false).value == SettlePin(NewTip(r, b.pinned.value, true), b, at)
    ensures !(r.integration.Some? && r.integration.value.state.Landed?)
    ensures FindCandidate(r.candidates, IdText(b.pinned.value.id)) == |r.candidates|
  {
    hide FindCandidate, BindVerdicts;
  }

  lemma NewTipObeysLaw(r: Record, c: Candidate)
    requires r.candidate.Some? && SafeRecord(r) && !(r.integration.Some? && r.integration.value.state.Landed?)
    requires FindCandidate(r.candidates, IdText(c.id)) == |r.candidates|
    ensures RepinLaw(r, NewTip(r, c, true))
  {
    hide GateAccepted, FindCandidate, CompletedProperly, ChainLaw, VerdictsOnChain, OptedOut;
    NewTipInvalidates(r, c);
  }

  lemma PinLaw(r: Record, b: Body, at: Option<Stamp>, marked: bool)
    requires b.Pin() && SafeRecord(r) && PinCandidate(r, b, at, marked, false).Accept?
    requires Repinned(r, PinCandidate(r, b, at, marked, false).value)
    ensures RepinLaw(r, PinCandidate(r, b, at, marked, false).value)
  {
    hide RepinLaw, NewTip, SettlePin, SafeRecord;
    RepinIsNewTip(r, b, at, marked);
    var s := NewTip(r, b.pinned.value, true);
    NewTipObeysLaw(r, b.pinned.value);
    SettlePinKeepsChain(s, b, at);
    RepinLawFrame(r, s, SettlePin(s, b, at));
  }

  /** What a re-pin does: nothing had landed, the chain grew by the new tip, which
      names the old one; integration is cleared; every verdict keeps its row and
      its state; and none counts any more unless its gate opted out. */
  ghost predicate RepinLaw(before: Record, after: Record) {
    && before.candidate.Some? && after.candidate.Some?
    && !(before.integration.Some? && before.integration.value.state.Landed?)
    && after.candidates == before.candidates + [after.candidate.value]
    && after.candidate.value.supersedes == Some(IdText(before.candidate.value.id))
    && after.integration.None?
    && |after.gateResults| == |before.gateResults|
    && (forall i | 0 <= i < |after.gateResults| ::
          after.gateResults[i].id == before.gateResults[i].id && after.gateResults[i].state == before.gateResults[i].state)
    && (forall g | g in after.gateResults :: GateAccepted(after, g, false) ==> OptedOut(after.pins.gates, g.id))
  }

  lemma {:induction false} EventRepinLaw(r: Record, e: Event, at: Option<Stamp>)
    requires SafeRecord(r) && !Terminal(r) && ApplyByType(r, e, at, false).Accept?
    requires Repinned(r, ApplyByType(r, e, at, false).value)
    ensures RepinLaw(r, ApplyByType(r, e, at, false).value)
  {
    if e.body.Pin() {
      PinLaw(r, e.body, at, e.marked);
    } else if e.body.CandidatePublished? {
      PublishedKeepsChain(r, e.body, at);
    } else if Bystander(e.body) {
      BystanderFrame(r, e, at);
    }
  }

  /** The re-pin law over runs: any call of any run that changes the tip obeys it. */
  lemma {:induction false} RepinsObeyTheLaw(s: Spec, calls: Calls, a: Action, now: Stamp)
    requires Repinned(Run(s, calls).record, Step(Run(s, calls), a, now).record)
    ensures RepinLaw(Run(s, calls).record, Step(Run(s, calls), a, now).record)
  {
    hide RepinLaw, SafeRecord, Run, ApplyByType, Admit, LogKey, LeaseCheck, HandleConflict;
    RunIsSafe(s, calls);
    var sys := Run(s, calls);
    if a.DoEvent? {
      var r := sys.record;
      var admitted := Admit(a.event, a.fence, now).value;
      var e := if admitted.body.ProviderEvent() then Canonical(admitted) else admitted;
      EventRepinLaw(r, e, Either(e.at, Some(now)));
      RepinLawFrame(r, ApplyByType(r, e, Either(e.at, Some(now)), false).value, Step(sys, a, now).record);
    }
  }

  lemma RepinLawFrame(before: Record, mid: Record, after: Record)
    requires RepinLaw(before, mid)
    requires after.pins == mid.pins && after.gateResults == mid.gateResults && after.integration == mid.integration
    requires after.candidate == mid.candidate && after.candidates == mid.candidates
    ensures RepinLaw(before, after)
  {
    forall g | g in after.gateResults && GateAccepted(after, g, false)
      ensures OptedOut(after.pins.gates, g.id)
    {
      assert GateAccepted(mid, g, false);
    }
  }
}
