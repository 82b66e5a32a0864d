/** The local execution engine: the doors that stamp and journal what the kernel
    accepted, the runs they generate, and the journal fold. */
module ExecutionStore {
  import opened Common
  import opened ExecutionTypes
  import opened ExecutionKernel

  datatype Spec = Spec(executionId: string, itemNode: string, factoryNode: string,
                       gates: seq<PinnedGate>, boundary: Boundary, at: Option<Stamp>)

  function InitExecution(s: Spec): Record {
    Record(Pins(s.executionId, s.itemNode, s.factoryNode, s.gates, s.at),
           Implementation, [],
           seq(|s.gates|, i requires 0 <= i < |s.gates| => GateRow(s.gates[i].id, None, 0, None, None)),
           None, [], None, [], None, Completion(s.boundary, None, None), false, 0, s.at, None, None)
  }

  /** The durable journal: its genesis, ownership rows, and accepted events. */
  datatype Row =
    | Opened(spec: Spec)
    | OwnershipChanged(sequence: nat, at: Stamp, owner: Option<Owner>,
                       releasedAt: Option<Stamp>, forced: Option<ForcedRelease>)
    | Recorded(event: Event, sequence: nat)

  datatype System = System(record: Record, journal: seq<Row>)

  /** The process behind a call: its owner pair and its instance. */
  datatype Caller = Caller(worker: string, machine: Option<string>, instance: Option<string>)

  datatype Action =
    | DoClaim(caller: Caller, lease: Stamp, takeover: bool)
    | DoRenew(caller: Caller, fence: Option<int>, lease: Stamp)
    | DoRelease(caller: Caller, fence: Option<int>)
    | DoForceRelease(node: string, person: string, reason: string, requestId: string,
                     expected: string, revision: string, wellFormed: bool)
    | DoEvent(caller: Caller, fence: Option<int>, event: Event)

  function SeenKeys(journal: seq<Row>): set<string> {
    if journal == [] then {}
    else
      var last := journal[|journal| - 1];
      SeenKeys(journal[..|journal| - 1]) + if last.Recorded? && last.event.key.Some? then {last.event.key.value} else {}
  }

  predicate Owns(r: Record, c: Caller) {
    r.owner.Some? && SameOwner(r.owner.value, c.worker, c.machine)
  }

  // ---------- the doors ----------

  /** Move a provider event's submit key to the spelling the journal keeps;
      two different spellings are refused. */
  function NormalizeSubmitKey(e: Event): Verdict<Event> {
    if !e.body.ProviderEvent() then Accept(e)
    else if e.key.Some? && e.body.submitKey.Some? && e.key != e.body.submitKey then Refuse(InvalidEvent)
    else Accept(e.(body := e.body.(submitKey := Either(e.key, e.body.submitKey)), key := None))
  }

  /** What the event door stamps on an event before the kernel sees it. */
  function Admit(e: Event, fence: Option<int>, now: Stamp): Verdict<Event> {
    var timed := e.(at := Either(e.at, Some(now)), fence := fence);
    var marked := if e.body.GateStarted? || e.body.Pin() then timed.(marked := true) else timed;
    var published :=
      if e.body.CandidatePublished? then
        var reference := NormalReference(e.body);
        marked.(body := e.body.(reference := Some(reference), verifiedAt := reference.verifiedAt))
      else marked;
    NormalizeSubmitKey(published)
  }

  /** The row an accepted event leaves: the canonical attempt index and the log key. */
  function Journaled(e: Event, key: string): Event {
    var spelled := if e.body.ProviderEvent() && AttemptIndex(e.body.attempt).Some? then Canonical(e) else e;
    spelled.(key := Some(key))
  }

  function Own(sys: System, v: Verdict<Record>, now: Stamp): System {
    if v.Refuse? then sys
    else
      var r := v.value;
      System(r, sys.journal + [OwnershipChanged(r.sequence, now, r.owner, r.releasedAt, None)])
  }

  function EventDoor(sys: System, caller: Caller, fence: Option<int>, event: Event, now: Stamp): System {
    var admitted := Admit(event, fence, now);
    if admitted.Refuse? then sys
    else
      var outcome := ApplyEvent(sys.record, admitted.value, SeenKeys(sys.journal), Some(now), false);
      if !outcome.Applied? || !Owns(sys.record, caller) then sys
      else System(outcome.record, sys.journal + [Recorded(Journaled(admitted.value, outcome.key), outcome.record.sequence)])
  }

  function ForceReleaseDoor(sys: System, v: Verdict<Record>, requestId: string, now: Stamp): System {
    var prior := sys.record.forcedRelease;
    if v.Refuse? || (prior.Some? && prior.value.requestId == requestId) then sys
    else
      var r := v.value;
      System(r, sys.journal + [OwnershipChanged(r.sequence, now, None, r.releasedAt, r.forcedRelease)])
  }

  function Step(sys: System, a: Action, now: Stamp): System {
    match a
    case DoClaim(c, lease, takeover) =>
      Own(sys, Claim(sys.record, c.worker, c.machine, c.instance, lease, now, takeover), now)
    case DoRenew(c, fence, lease) =>
      if Owns(sys.record, c) then Own(sys, Renew(sys.record, fence, lease, now), now) else sys
    case DoRelease(c, fence) =>
      if Owns(sys.record, c) then Own(sys, Release(sys.record, fence, now), now) else sys
    case DoForceRelease(node, person, reason, requestId, expected, revision, wellFormed) =>
      ForceReleaseDoor(sys, ForceRelease(sys.record, node, person, reason, requestId, expected, revision, wellFormed, now),
                       requestId, now)
    case DoEvent(c, fence, e) => EventDoor(sys, c, fence, e, now)
  }

  /** Every interleaving of calls, each at whatever time the clock then says. */
  type Calls = seq<(Action, Stamp)>

  function Open(s: Spec): System {
    System(InitExecution(s), [Opened(s)])
  }

  function Run(s: Spec, calls: Calls): System {
    if calls == [] then Open(s)
    else Step(Run(s, calls[..|calls| - 1]), calls[|calls| - 1].0, calls[|calls| - 1].1)
  }

  // ---------- the fold ----------

  datatype Folded = Folded(record: Record, seen: set<string>)

  function FoldOwnership(r: Record, row: Row): Record
    requires row.OwnershipChanged?
  {
    r.(owner := row.owner, updatedAt := Some(row.at),
       releasedAt := Either(row.releasedAt, r.releasedAt),
       forcedRelease := Either(row.forced, r.forcedRelease))
  }

  /** One journal row under the store's strict fold; `None` is a journal it refuses. */
  function FoldRow(f: Folded, row: Row): Option<Folded> {
    match row
    case Opened(_) => None
    case OwnershipChanged(sequence, _, _, _, _) =>
      if sequence != f.record.sequence then None else Some(f.(record := FoldOwnership(f.record, row)))
    case Recorded(e, sequence) =>
      var o := ApplyEvent(f.record, e, f.seen, None, true);
      if !o.Applied? || sequence != o.record.sequence then None
      else Some(Folded(o.record, f.seen + {o.key}))
  }

  function Rebuild(journal: seq<Row>): Option<Folded> {
    if journal == [] then None
    else if |journal| == 1 then
      if journal[0].Opened? then Some(Folded(InitExecution(journal[0].spec), {})) else None
    else
      var before := Rebuild(journal[..|journal| - 1]);
      if before.None? then None else FoldRow(before.value, journal[|journal| - 1])
  }

  // ---------- replay is exact ----------

  lemma ReplayAttempt(r: Record, e: Event, at: Option<Stamp>)
    requires e.body.ProviderEvent()
    ensures ApplyAttempt(r, e, at, false).Accept? ==> ApplyAttempt(r, e, at, true) == ApplyAttempt(r, e, at, false)
  {
  }

  lemma ReplayGates(r: Record)
    ensures GatesAccepted(r, false) ==> GatesAccepted(r, true)
    ensures BoundaryReached(r, false) ==> BoundaryReached(r, true)
  {
  }

  lemma ReplayPublished(r: Record, b: Body, at: Option<Stamp>)
    requires b.CandidatePublished?
    requires b.reference == Some(NormalReference(b)) && b.verifiedAt == NormalReference(b).verifiedAt
    ensures ApplyPublished(r, b, at, false).Accept? ==> ApplyPublished(r, b, at, true) == ApplyPublished(r, b, at, false)
  {
  }

  /** Every check the trusted fold relaxes is implied by the live one, provided
      the row carries what the door stamps. */
  lemma ReplayByType(r: Record, e: Event, at: Option<Stamp>)
    requires (e.body.GateStarted? || e.body.Pin()) ==> e.marked
    requires e.body.CandidatePublished? ==>
               e.body.reference == Some(NormalReference(e.body)) && e.body.verifiedAt == NormalReference(e.body).verifiedAt
    ensures ApplyByType(r, e, at, false).Accept? ==> ApplyByType(r, e, at, true) == ApplyByType(r, e, at, false)
  {
    ReplayGates(r);
    if e.body.ProviderEvent() {
      ReplayAttempt(r, e, at);
    } else if e.body.CandidatePublished? {
      ReplayPublished(r, e.body, at);
    }
  }

  lemma AdmitStamps(e: Event, fence: Option<int>, now: Stamp)
    requires Admit(e, fence, now).Accept?
    ensures var a := Admit(e, fence, now).value;
      && a.at.Some? && a.fence == fence
      && (a.body.ProviderEvent() ==> a.key.None?)
      && ((a.body.GateStarted? || a.body.Pin()) ==> a.marked)
      && (a.body.CandidatePublished? ==>
            a.body.reference == Some(NormalReference(a.body)) && a.body.verifiedAt == NormalReference(a.body).verifiedAt)
  {
    hide ApplyByType;
  }

  /** An attempt spelled as its canonical number has one key, raw or not. */
  lemma RawKeyOfNumber(r: Record, b: Body)
    requires b.ProviderEvent() && AttemptIndex(b.attempt).Some? && b.attempt.value.NumberAttempt?
    ensures DerivedKey(r, b, true) == DerivedKey(r, b, false)
  {
  }

  /** The log key on a journaled provider row changes nothing the fold reads. */
  lemma AttemptIgnoresLogKey(r: Record, c: Event, key: string, at: Option<Stamp>)
    requires c.body.ProviderEvent() && c.key.None? && ApplyByType(r, c, at, false).Accept?
    ensures ApplyByType(r, c.(key := Some(key)), at, true) == ApplyByType(r, c, at, true)
    ensures HandleConflict(r, c.(key := Some(key))) == HandleConflict(r, c)
  {
    hide ProviderOf, WithProvider, SetRow, RowAt;
    if !c.body.AttemptObserved? {
      assert c.body.submitKey.Some?;
      assert SubmitKeyOf(c.(key := Some(key))) == SubmitKeyOf(c);
    }
  }

  lemma ByTypeIgnoresLogKey(r: Record, e: Event, key: string, at: Option<Stamp>, historical: bool)
    requires !e.body.ProviderEvent()
    ensures ApplyByType(r, e.(key := Some(key)), at, historical) == ApplyByType(r, e, at, historical)
  {
  }

  /** A provider row is folded under the key it was recorded under: the journaled
      number spells the same attempt raw as it does canonically. */
  lemma ReplayProvider(r: Record, c: Event, key: string, seen: set<string>, now: Stamp, legacy: Option<string>)
    requires c.body.ProviderEvent() && c.at.Some? && c.key.None?
    requires AttemptIndex(c.body.attempt).Some? && c.body.attempt.value.NumberAttempt?
    requires ApplyCanonical(r, c, legacy, seen, Some(now), false).Applied?
    requires key == ApplyCanonical(r, c, legacy, seen, Some(now), false).key
    ensures ApplyEvent(r, c.(key := Some(key)), seen, None, true) == ApplyCanonical(r, c, legacy, seen, Some(now), false)
    ensures key !in seen
  {
    hide ApplyByType, HandleConflict, DerivedKey, ApplyAttempt;
    var row := c.(key := Some(key));
    assert ApplyByType(r, c, c.at, false).Accept?;
    ReplayByType(r, c, c.at);
    AttemptIgnoresLogKey(r, c, key, c.at);
    RawKeyOfNumber(r, c.body);
  }

  /** The relation one accepted live event has to the row it leaves. */
  lemma {:induction false} LiveImpliesReplay(r: Record, e: Event, seen: set<string>, now: Stamp)
    requires e.at.Some? && (e.body.ProviderEvent() ==> e.key.None?)
    requires (e.body.GateStarted? || e.body.Pin()) ==> e.marked
    requires e.body.CandidatePublished? ==>
               e.body.reference == Some(NormalReference(e.body)) && e.body.verifiedAt == NormalReference(e.body).verifiedAt
    requires ApplyEvent(r, e, seen, Some(now), false).Applied?
    ensures var o := ApplyEvent(r, e, seen, Some(now), false);
      ApplyEvent(r, Journaled(e, o.key), seen, None, true) == o && o.key !in seen
  {
    hide ApplyByType, HandleConflict, DerivedKey;
    var o := ApplyEvent(r, e, seen, Some(now), false);
    if e.body.ProviderEvent() {
      var legacy := if e.body.attempt.value.TextAttempt? then DerivedKey(r, e.body, true) else None;
      ReplayProvider(r, Canonical(e), o.key, seen, now, legacy);
    } else {
      ReplayByType(r, e, e.at);
      ByTypeIgnoresLogKey(r, e, o.key, e.at, true);
    }
  }

  lemma SeenKeysAppend(journal: seq<Row>, row: Row)
    ensures SeenKeys(journal + [row]) ==
            SeenKeys(journal) + if row.Recorded? && row.event.key.Some? then {row.event.key.value} else {}
  {
    assert (journal + [row])[..|journal|] == journal;
  }

  lemma RebuildAppend(journal: seq<Row>, row: Row)
    requires Rebuild(journal).Some?
    ensures Rebuild(journal + [row]) == FoldRow(Rebuild(journal).value, row)
  {
    assert (journal + [row])[..|journal|] == journal;
  }

  /** A system whose journal folds back to exactly its record and its seen keys. */
  ghost predicate Faithful(sys: System) {
    Rebuild(sys.journal) == Some(Folded(sys.record, SeenKeys(sys.journal)))
  }

  lemma OwnershipFaithful(sys: System, row: Row)
    requires Faithful(sys) && row.OwnershipChanged? && row.sequence == sys.record.sequence
    ensures Faithful(System(FoldOwnership(sys.record, row), sys.journal + [row]))
  {
    RebuildAppend(sys.journal, row);
    SeenKeysAppend(sys.journal, row);
    assert SeenKeys(sys.journal + [row]) == SeenKeys(sys.journal);
  }

  lemma OwnFaithful(sys: System, v: Verdict<Record>, now: Stamp)
    requires Faithful(sys)
    requires v.Accept? ==>
      && v.value == sys.record.(owner := v.value.owner, updatedAt := Some(now), releasedAt := v.value.releasedAt)
      && (sys.record.releasedAt.Some? ==> v.value.releasedAt.Some?)
    ensures Faithful(Own(sys, v, now))
  {
    if v.Accept? {
      var r := v.value;
      OwnershipFaithful(sys, OwnershipChanged(r.sequence, now, r.owner, r.releasedAt, None));
    }
  }

  lemma ForceReleaseFaithful(sys: System, v: Verdict<Record>, requestId: string, now: Stamp)
    requires Faithful(sys)
    requires v.Accept? && (sys.record.forcedRelease.None? || sys.record.forcedRelease.value.requestId != requestId) ==>
      && v.value.releasedAt.Some? && v.value.forcedRelease.Some?
      && v.value == sys.record.(owner := None, updatedAt := Some(now), releasedAt := v.value.releasedAt,
                                forcedRelease := v.value.forcedRelease)
    ensures Faithful(ForceReleaseDoor(sys, v, requestId, now))
  {
    if v.Accept? && (sys.record.forcedRelease.None? || sys.record.forcedRelease.value.requestId != requestId) {
      var r := v.value;
      OwnershipFaithful(sys, OwnershipChanged(r.sequence, now, None, r.releasedAt, r.forcedRelease));
    }
  }

  lemma {:induction false} EventFaithful(sys: System, caller: Caller, fence: Option<int>, event: Event, now: Stamp)
    requires Faithful(sys)
    ensures Faithful(EventDoor(sys, caller, fence, event, now))
  {
    hide ApplyEvent, Canonical, FoldOwnership, InitExecution, Admit;
    var seen := SeenKeys(sys.journal);
    var admitted := Admit(event, fence, now);
    if EventDoor(sys, caller, fence, event, now) != sys {
      AdmitStamps(event, fence, now);
      LiveImpliesReplay(sys.record, admitted.value, seen, now);
      var o := ApplyEvent(sys.record, admitted.value, seen, Some(now), false);
      var row := Recorded(Journaled(admitted.value, o.key), o.record.sequence);
      RebuildAppend(sys.journal, row);
      SeenKeysAppend(sys.journal, row);
    }
  }

  lemma {:induction false} StepFaithful(sys: System, a: Action, now: Stamp)
    requires Faithful(sys)
    ensures Faithful(Step(sys, a, now))
  {
    hide Rebuild, SeenKeys, EventDoor, Own, ForceReleaseDoor, Faithful;
    match a
    case DoClaim(c, lease, takeover) =>
      OwnFaithful(sys, Claim(sys.record, c.worker, c.machine, c.instance, lease, now, takeover), now);
    case DoRenew(c, fence, lease) =>
      OwnFaithful(sys, Renew(sys.record, fence, lease, now), now);
    case DoRelease(c, fence) =>
      OwnFaithful(sys, Release(sys.record, fence, now), now);
    case DoForceRelease(node, person, reason, requestId, expected, revision, wellFormed) =>
      ForceReleaseFaithful(sys, ForceRelease(sys.record, node, person, reason, requestId, expected, revision, wellFormed, now),
                           requestId, now);
    case DoEvent(c, fence, e) => EventFaithful(sys, c, fence, e, now);
  }

  /** Journal replay is exact: after any interleaving of claims, renewals, releases
      and events, the strict fold accepts every row of the journal and reproduces
      the record and the recorded keys. */
  lemma {:induction false} ReplayIsExact(s: Spec, calls: Calls)
    ensures Rebuild(Run(s, calls).journal) == Some(Folded(Run(s, calls).record, SeenKeys(Run(s, calls).journal)))
  {
    if calls == [] {
      assert SeenKeys([Opened(s)]) == {};
    } else {
      ReplayIsExact(s, calls[..|calls| - 1]);
      StepFaithful(Run(s, calls[..|calls| - 1]), calls[|calls| - 1].0, calls[|calls| - 1].1);
    }
  }

  // ---------- the kernel's own fold ----------

  /** The kernel skips what it cannot apply instead of refusing the journal. */
  function SkipFold(f: Folded, row: Row): Folded {
    match row
    case Opened(_) => f
    case OwnershipChanged(_, _, _, _, _) => f.(record := FoldOwnership(f.record, row))
    case Recorded(e, _) =>
      var o := ApplyEvent(f.record, e, f.seen, None, true);
      if o.Applied? then Folded(o.record, f.seen + {o.key}) else f
  }

  function SkipFoldAll(f: Folded, rows: seq<Row>): Folded {
    if rows == [] then f else SkipFold(SkipFoldAll(f, rows[..|rows| - 1]), rows[|rows| - 1])
  }

  /** The position of the first genesis row, or the length. */
  function FindGenesis(journal: seq<Row>): (k: nat)
    ensures k <= |journal|
    ensures k < |journal| ==> journal[k].Opened?
  {
    if journal == [] then 0 else if journal[0].Opened? then 0 else 1 + FindGenesis(journal[1..])
  }

  function RebuildFromEvents(journal: seq<Row>): Option<Record> {
    var g := FindGenesis(journal);
    if g == |journal| then None
    else Some(SkipFoldAll(Folded(InitExecution(journal[g].spec), {}), journal).record)
  }

  lemma {:induction false} StrictAgreesWithKernel(journal: seq<Row>)
    requires Rebuild(journal).Some?
    ensures journal[0].Opened?
    ensures SkipFoldAll(Folded(InitExecution(journal[0].spec), {}), journal) == Rebuild(journal).value
  {
    if |journal| > 1 {
      StrictAgreesWithKernel(journal[..|journal| - 1]);
    } else {
      assert SkipFoldAll(Folded(InitExecution(journal[0].spec), {}), journal[..0])
          == Folded(InitExecution(journal[0].spec), {});
    }
  }

  /** The kernel's fold of the journal of any run is the live record. */
  lemma KernelReplayIsExact(s: Spec, calls: Calls)
    ensures RebuildFromEvents(Run(s, calls).journal) == Some(Run(s, calls).record)
  {
    ReplayIsExact(s, calls);
    StrictAgreesWithKernel(Run(s, calls).journal);
  }
}
