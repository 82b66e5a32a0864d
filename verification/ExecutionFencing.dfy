/** Fencing over any interleaving of workers. */
module ExecutionFencing {
  import opened Common
  import opened ExecutionTypes
  import opened ExecutionKernel
  import opened ExecutionStore

  /** A record that can never be written again by anyone. */
  predicate Closed(r: Record) {
    r.owner.None? && r.releasedAt.Some?
  }

  /** A fence names one process: two owners with the same fence differ at most in their lease. */
  predicate SameHolder(a: Owner, b: Owner) {
    a.worker == b.worker && a.machine == b.machine && a.instance == b.instance
  }

  /** How one call may move the ownership. */
  ghost predicate FenceStep(r: Record, s: Record) {
    && (r.owner.Some? && s.owner.Some? ==>
          && r.owner.value.fence <= s.owner.value.fence
          && (r.owner.value.fence == s.owner.value.fence ==> SameHolder(r.owner.value, s.owner.value)))
    && (r.owner.Some? && s.owner.None? ==> Closed(s))
    && (r.owner.None? && s.owner.Some? ==> r.releasedAt.None?)
    && (r.releasedAt.Some? ==> s.releasedAt.Some?)
  }

  ghost predicate KeepsOwner(r: Record, s: Record) {
    s.owner == r.owner && s.releasedAt == r.releasedAt && s.pins == r.pins && s.sequence == r.sequence
  }

  lemma AttemptKeepsOwner(r: Record, e: Event, at: Option<Stamp>, historical: bool)
    requires e.body.ProviderEvent() && ApplyAttempt(r, e, at, historical).Accept?
    ensures KeepsOwner(r, ApplyAttempt(r, e, at, historical).value)
  {
  }

  lemma CandidateKeepsOwner(r: Record, b: Body, at: Option<Stamp>, marked: bool)
    ensures b.Pin() && PinCandidate(r, b, at, marked, false).Accept? ==>
              KeepsOwner(r, PinCandidate(r, b, at, marked, false).value)
    ensures b.CandidatePublished? && ApplyPublished(r, b, at, false).Accept? ==>
              KeepsOwner(r, ApplyPublished(r, b, at, false).value)
  {
    hide FindCandidate, BindVerdicts, ValidTime, Find;
  }

  lemma {:induction false} ApplyKeepsOwner(r: Record, e: Event, at: Option<Stamp>)
    requires ApplyByType(r, e, at, false).Accept?
    ensures KeepsOwner(r, ApplyByType(r, e, at, false).value)
  {
    hide PinCandidate, ApplyPublished, ApplyAttempt, GatesAccepted, BoundaryReached, Upsert, SetRow, FindGate, RowAt;
    if e.body.ProviderEvent() {
      AttemptKeepsOwner(r, e, at, false);
    } else if e.body.Pin() || e.body.CandidatePublished? {
      CandidateKeepsOwner(r, e.body, at, e.marked);
    }
  }

  lemma {:induction false} EventKeepsOwner(sys: System, caller: Caller, fence: Option<int>, event: Event, now: Stamp)
    ensures var s := EventDoor(sys, caller, fence, event, now).record;
      s.owner == sys.record.owner && s.releasedAt == sys.record.releasedAt
  {
    if EventDoor(sys, caller, fence, event, now) != sys {
      var a := Admit(event, fence, now).value;
      var e := if a.body.ProviderEvent() then Canonical(a) else a;
      ApplyKeepsOwner(sys.record, e, Either(e.at, Some(now)));
    }
  }

  lemma {:induction false} StepFences(sys: System, a: Action, now: Stamp)
    ensures FenceStep(sys.record, Step(sys, a, now).record)
  {
    if a.DoEvent? {
      EventKeepsOwner(sys, a.caller, a.fence, a.event, now);
    }
  }

  lemma StepKeepsClosed(sys: System, a: Action, now: Stamp)
    requires Closed(sys.record)
    ensures Closed(Step(sys, a, now).record)
  {
    if a.DoEvent? {
      EventKeepsOwner(sys, a.caller, a.fence, a.event, now);
    }
  }

  /** The owner at the end of a run against the owner at any earlier point of it. */
  lemma {:induction false} FenceOverRuns(s: Spec, calls: Calls, i: nat)
    requires i <= |calls|
    requires Run(s, calls[..i]).record.owner.Some?
    ensures var before, after := Run(s, calls[..i]).record, Run(s, calls).record;
      if after.owner.None? then Closed(after)
      else
        && before.owner.value.fence <= after.owner.value.fence
        && (before.owner.value.fence == after.owner.value.fence ==> SameHolder(before.owner.value, after.owner.value))
    decreases |calls| - i
  {
    if i == |calls| {
      assert calls[..i] == calls;
    } else {
      var init := calls[..|calls| - 1];
      assert init[..i] == calls[..i];
      FenceOverRuns(s, init, i);
      var sys := Run(s, init);
      StepFences(sys, calls[|calls| - 1].0, calls[|calls| - 1].1);
      if sys.record.owner.None? {
        StepKeepsClosed(sys, calls[|calls| - 1].0, calls[|calls| - 1].1);
      }
    }
  }

  /** An event is recorded only under the fence in force, on an open execution. */
  lemma RecordedUnderFence(sys: System, caller: Caller, fence: Option<int>, event: Event, now: Stamp)
    requires EventDoor(sys, caller, fence, event, now) != sys
    ensures sys.record.owner.Some? && fence == Some(sys.record.owner.value.fence) && !Terminal(sys.record)
    ensures !LeaseExpiredAt(sys.record.owner.value, now)
    ensures SameOwner(sys.record.owner.value, caller.worker, caller.machine)
    ensures var s := EventDoor(sys, caller, fence, event, now);
      |s.journal| == |sys.journal| + 1 && s.journal[..|sys.journal|] == sys.journal
      && s.journal[|sys.journal|].Recorded? && s.journal[|sys.journal|].event.fence == fence
  {
  }

  /** A renewal, a release or an event made under this fence. */
  predicate CarriesFence(a: Action, fence: int) {
    match a
    case DoRenew(_, f, _) => f == Some(fence)
    case DoRelease(_, f) => f == Some(fence)
    case DoEvent(_, f, _) => f == Some(fence)
    case DoClaim(_, _, _) => false
    case DoForceRelease(_, _, _, _, _, _, _) => false
  }

  /** A superseded fence is dead: once some point of a run held a larger fence, no renewal, release or
      event carrying the smaller one changes anything at any later point. */
  lemma {:induction false} SupersededFenceIsDead(s: Spec, calls: Calls, i: nat, a: Action, fence: int, now: Stamp)
    requires i <= |calls| && Run(s, calls[..i]).record.owner.Some?
    requires fence < Run(s, calls[..i]).record.owner.value.fence && CarriesFence(a, fence)
    ensures Step(Run(s, calls), a, now) == Run(s, calls)
  {
    hide ApplyEvent, Admit, Run;
    FenceOverRuns(s, calls, i);
    var sys := Run(s, calls);
    if a.DoEvent? && EventDoor(sys, a.caller, a.fence, a.event, now) != sys {
      RecordedUnderFence(sys, a.caller, a.fence, a.event, now);
    }
  }

  /** A live lease is never taken away: whatever the call, the execution is still
      held by the same worker and machine, or it was released for good. */
  lemma {:induction false} LiveLeaseIsNeverStolen(sys: System, a: Action, now: Stamp)
    requires sys.record.owner.Some? && !LeaseExpiredAt(sys.record.owner.value, now)
    ensures var o, s := sys.record.owner.value, Step(sys, a, now).record;
      if s.owner.Some? then SameOwner(s.owner.value, o.worker, o.machine)
      else a.DoForceRelease? || (a.DoRelease? && a.fence == Some(o.fence) && SameOwner(o, a.caller.worker, a.caller.machine))
  {
    if a.DoEvent? {
      EventKeepsOwner(sys, a.caller, a.fence, a.event, now);
    }
  }

  predicate FencesWithin(journal: seq<Row>, limit: int) {
    forall row | row in journal && row.Recorded? :: row.event.fence.Some? && row.event.fence.value <= limit
  }

  ghost predicate FencesAscend(journal: seq<Row>) {
    forall i, j | 0 <= i < j < |journal| && journal[i].Recorded? && journal[j].Recorded? ::
      journal[i].event.fence.Some? && journal[j].event.fence.Some? && journal[i].event.fence.value <= journal[j].event.fence.value
  }

  ghost predicate JournalFenced(sys: System) {
    && FencesAscend(sys.journal)
    && (sys.record.owner.Some? ==> FencesWithin(sys.journal, sys.record.owner.value.fence))
    && (sys.record.owner.None? && !Closed(sys.record) ==> FencesWithin(sys.journal, 0))
  }

  /** A call that records no event leaves the recorded rows as they were. */
  lemma OwnershipCallsRecordNothing(sys: System, a: Action, now: Stamp)
    requires !a.DoEvent?
    ensures var s := Step(sys, a, now);
      |sys.journal| <= |s.journal| && s.journal[..|sys.journal|] == sys.journal
      && forall k | |sys.journal| <= k < |s.journal| :: !s.journal[k].Recorded?
  {
  }

  lemma WithinPrefix(journal: seq<Row>, longer: seq<Row>, limit: int, limit': int)
    requires |journal| <= |longer| && longer[..|journal|] == journal && limit <= limit'
    requires forall k | |journal| <= k < |longer| && longer[k].Recorded? ::
               longer[k].event.fence.Some? && longer[k].event.fence.value <= limit'
    requires FencesWithin(journal, limit)
    ensures FencesWithin(longer, limit')
  {
    forall row | row in longer && row.Recorded?
      ensures row.event.fence.Some? && row.event.fence.value <= limit'
    {
      var k :| 0 <= k < |longer| && longer[k] == row;
      if k < |journal| {
        assert journal[k] == row;
      }
    }
  }

  lemma AscendPrefix(journal: seq<Row>, longer: seq<Row>)
    requires |journal| <= |longer| && longer[..|journal|] == journal
    requires forall k | |journal| <= k < |longer| :: !longer[k].Recorded?
    requires FencesAscend(journal)
    ensures FencesAscend(longer)
  {
    forall i, j | 0 <= i < j < |longer| && longer[i].Recorded? && longer[j].Recorded?
      ensures longer[i].event.fence.Some? && longer[j].event.fence.Some? && longer[i].event.fence.value <= longer[j].event.fence.value
    {
      assert journal[i] == longer[i] && journal[j] == longer[j];
    }
  }

  lemma AscendAppend(journal: seq<Row>, row: Row)
    requires FencesAscend(journal) && row.Recorded? && row.event.fence.Some?
    requires FencesWithin(journal, row.event.fence.value)
    ensures FencesAscend(journal + [row])
  {
    var longer := journal + [row];
    forall i, j | 0 <= i < j < |longer| && longer[i].Recorded? && longer[j].Recorded?
      ensures longer[i].event.fence.Some? && longer[j].event.fence.Some? && longer[i].event.fence.value <= longer[j].event.fence.value
    {
      assert longer[i] in journal;
    }
  }

  lemma {:induction false} StepKeepsJournalFenced(sys: System, a: Action, now: Stamp)
    requires JournalFenced(sys)
    ensures JournalFenced(Step(sys, a, now))
  {
    var s := Step(sys, a, now);
    if a.DoEvent? {
      EventKeepsOwner(sys, a.caller, a.fence, a.event, now);
      if s != sys {
        RecordedUnderFence(sys, a.caller, a.fence, a.event, now);
        var row := s.journal[|sys.journal|];
        assert s.journal == sys.journal + [row];
        AscendAppend(sys.journal, row);
        WithinPrefix(sys.journal, s.journal, a.fence.value, a.fence.value);
      }
    } else {
      OwnershipCallsRecordNothing(sys, a, now);
      AscendPrefix(sys.journal, s.journal);
      StepFences(sys, a, now);
      if sys.record.owner.Some? && s.record.owner.Some? {
        WithinPrefix(sys.journal, s.journal, sys.record.owner.value.fence, s.record.owner.value.fence);
      } else if sys.record.owner.None? && !Closed(sys.record) {
        WithinPrefix(sys.journal, s.journal, 0, if s.record.owner.Some? then s.record.owner.value.fence else 0);
      }
    }
  }

  lemma {:induction false} RunKeepsJournalFenced(s: Spec, calls: Calls)
    ensures JournalFenced(Run(s, calls))
  {
    if calls != [] {
      RunKeepsJournalFenced(s, calls[..|calls| - 1]);
      StepKeepsJournalFenced(Run(s, calls[..|calls| - 1]), calls[|calls| - 1].0, calls[|calls| - 1].1);
    }
  }

  /** Along the journal of any run the fences of the accepted events never decrease. */
  lemma {:induction false} JournalFencesAscend(s: Spec, calls: Calls)
    ensures FencesAscend(Run(s, calls).journal)
  {
    RunKeepsJournalFenced(s, calls);
  }
}
