/** One provider environment per attempt, over any run. */
module ExecutionAttempts {
  import opened Common
  import opened ExecutionTypes
  import opened ExecutionKernel
  import opened ExecutionStore
  import opened ExecutionFencing

  // ---------- rows sorted by index ----------

  ghost predicate Ascending(rows: seq<AttemptRow>) {
    forall i, j | 0 <= i < j < |rows| :: rows[i].index < rows[j].index
  }

  lemma FindInAscending(rows: seq<AttemptRow>, k: nat)
    requires Ascending(rows) && k < |rows|
    ensures Find(rows, rows[k].index) == k
  {
  }

  lemma FindAbsent(rows: seq<AttemptRow>, index: int)
    ensures Find(rows, index) == |rows| <==> forall i | 0 <= i < |rows| :: rows[i].index != index
  {
  }

  lemma {:induction false} InsertAscending(rows: seq<AttemptRow>, row: AttemptRow)
    requires Ascending(rows) && Find(rows, row.index) == |rows|
    ensures Ascending(InsertRow(rows, row))
    ensures forall x :: x in InsertRow(rows, row) <==> x in rows || x == row
  {
    FindAbsent(rows, row.index);
    if rows != [] && rows[|rows| - 1].index > row.index {
      var init := rows[..|rows| - 1];
      FindAbsent(init, row.index);
      InsertAscending(init, row);
      var s := InsertRow(init, row);
      assert forall i | 0 <= i < |s| :: s[i] in s;
      assert forall x :: x in rows <==> x in init || x == rows[|rows| - 1];
    }
  }

  lemma {:induction false} SortAscending(rows: seq<AttemptRow>)
    requires Ascending(rows)
    ensures SortRows(rows) == rows
  {
    if rows != [] {
      SortAscending(rows[..|rows| - 1]);
    }
  }

  /** Lookups after the upsert of one row: that row, and every other as it was. */
  lemma UpsertLooksUp(rows: seq<AttemptRow>, index: int, seed: RowSeed, stage: Stage, at: Option<Stamp>)
    requires Ascending(rows)
    ensures var u := Upsert(rows, index, seed, stage, at);
      && Ascending(u)
      && RowAt(u, index) == Some(if RowAt(rows, index).Some? then RowAt(rows, index).value else FreshRow(index, seed, stage, at))
      && forall j | j != index :: RowAt(u, j) == RowAt(rows, j)
  {
    if Find(rows, index) == |rows| {
      var added := FreshRow(index, seed, stage, at);
      var u := InsertRow(rows, added);
      assert (rows + [added])[..|rows|] == rows;
      SortAscending(rows);
      assert Upsert(rows, index, seed, stage, at) == u;
      InsertAscending(rows, added);
      forall j
        ensures RowAt(u, j) == if j == index then Some(added) else RowAt(rows, j)
      {
        LookupByMembership(rows, added, u, j);
      }
    }
  }

  lemma LookupOf(rows: seq<AttemptRow>, row: AttemptRow)
    requires Ascending(rows) && row in rows
    ensures RowAt(rows, row.index) == Some(row)
  {
    var k :| 0 <= k < |rows| && rows[k] == row;
    FindInAscending(rows, k);
  }

  lemma LookupByMembership(rows: seq<AttemptRow>, added: AttemptRow, u: seq<AttemptRow>, j: int)
    requires Ascending(u) && added in u
    requires RowAt(rows, j).Some? ==> RowAt(rows, j).value in u
    requires forall i | 0 <= i < |u| :: u[i] == added || u[i] in rows
    ensures RowAt(u, j) == if j == added.index then Some(added) else RowAt(rows, j)
  {
    if j == added.index {
      LookupOf(u, added);
    } else if RowAt(rows, j).Some? {
      LookupOf(u, RowAt(rows, j).value);
    } else {
      FindAbsent(rows, j);
      FindAbsent(u, j);
    }
  }

  lemma SetRowLooksUp(rows: seq<AttemptRow>, index: int, row: AttemptRow)
    requires Ascending(rows) && RowAt(rows, index).Some? && row.index == index
    ensures var u := SetRow(rows, index, row);
      && Ascending(u)
      && RowAt(u, index) == Some(row)
      && forall j | j != index :: RowAt(u, j) == RowAt(rows, j)
  {
    var k := Find(rows, index);
    var u := rows[k := row];
    FindInAscending(u, k);
    forall j | j != index
      ensures RowAt(u, j) == RowAt(rows, j)
    {
      var m := Find(rows, j);
      if m < |rows| {
        FindInAscending(u, m);
      } else {
        FindAbsent(rows, j);
        FindAbsent(u, j);
      }
    }
  }

  /** Writing one row through upsert and set changes the lookup of that row alone. */
  lemma WriteRowLooksUp(rows: seq<AttemptRow>, index: int, seed: RowSeed, stage: Stage, at: Option<Stamp>, row: AttemptRow)
    requires Ascending(rows) && row.index == index
    ensures var u := SetRow(Upsert(rows, index, seed, stage, at), index, row);
      && Ascending(u)
      && RowAt(u, index) == Some(row)
      && forall j | j != index :: RowAt(u, j) == RowAt(rows, j)
  {
    UpsertLooksUp(rows, index, seed, stage, at);
    SetRowLooksUp(Upsert(rows, index, seed, stage, at), index, row);
  }

  // ---------- what one event does to every provider ----------

  /** The provider of `index` once `e` is accepted, written without the rows. */
  function ProviderAfter(r: Record, e: Event, index: int, at: Option<Stamp>): Option<Provider> {
    var before := ProviderOf(r.attempts, index);
    if !e.body.ProviderEvent() || e.body.attempt.None? || NumberOf(e.body.attempt.value) != index then before
    else if e.body.AttemptSubmitting? then
      Some(Provider(e.body.provider, JNull, SubmitKeyOf(e).GetOr(""), Some(e.body.request), None,
                    at, None, None, None, None, 0))
    else if before.None? then None
    else if e.body.AttemptSubmitted? then
      Some(before.value.(handle := e.body.handle, env := if e.body.env != JNull then Some(e.body.env) else None,
                         submittedAt := Either(e.body.submittedAt, at)))
    else
      Some(before.value.(lastState := Some(e.body.observed), lastObservedAt := Either(e.body.observedAt, at),
                         lastDetail := e.body.detail, observedSeq := before.value.observedSeq + 1))
  }

  ghost predicate ProvidersFollow(r: Record, e: Event, at: Option<Stamp>, s: Record) {
    Ascending(s.attempts) && forall index :: ProviderOf(s.attempts, index) == ProviderAfter(r, e, index, at)
  }

  /** Rewriting one row keeps every other provider. */
  lemma WriteRowProviders(rows: seq<AttemptRow>, index: int, seed: RowSeed, stage: Stage, at: Option<Stamp>, row: AttemptRow)
    requires Ascending(rows) && row.index == index
    ensures var u := SetRow(Upsert(rows, index, seed, stage, at), index, row);
      Ascending(u) && forall j :: ProviderOf(u, j) == if j == index then row.provider else ProviderOf(rows, j)
  {
    WriteRowLooksUp(rows, index, seed, stage, at, row);
    var u := SetRow(Upsert(rows, index, seed, stage, at), index, row);
    forall j
      ensures ProviderOf(u, j) == if j == index then row.provider else ProviderOf(rows, j)
    {
      assert ProviderOf(u, j) == if RowAt(u, j).Some? then RowAt(u, j).value.provider else None;
      assert ProviderOf(rows, j) == if RowAt(rows, j).Some? then RowAt(rows, j).value.provider else None;
    }
  }

  /** Rewriting a row that is there keeps every other provider. */
  lemma SetRowProviders(rows: seq<AttemptRow>, index: int, row: AttemptRow)
    requires Ascending(rows) && RowAt(rows, index).Some? && row.index == index
    ensures var u := SetRow(rows, index, row);
      Ascending(u) && forall j :: ProviderOf(u, j) == if j == index then row.provider else ProviderOf(rows, j)
  {
    hide SetRow;
    SetRowLooksUp(rows, index, row);
    var u := SetRow(rows, index, row);
    forall j
      ensures ProviderOf(u, j) == if j == index then row.provider else ProviderOf(rows, j)
    {
      assert ProviderOf(u, j) == if RowAt(u, j).Some? then RowAt(u, j).value.provider else None;
      assert ProviderOf(rows, j) == if RowAt(rows, j).Some? then RowAt(rows, j).value.provider else None;
    }
  }

  lemma SubmitFollows(r: Record, e: Event, at: Option<Stamp>)
    requires e.body.AttemptSubmitting? || e.body.AttemptSubmitted?
    requires Ascending(r.attempts) && ApplyAttempt(r, e, at, false).Accept?
    ensures ProvidersFollow(r, e, at, ApplyAttempt(r, e, at, false).value)
  {
    hide SortRows, Find;
    var index := NumberOf(e.body.attempt.value);
    var rows := Upsert(r.attempts, index, e.body.row, r.stage, at);
    var row := RowAt(rows, index).GetOr(FreshRow(index, e.body.row, r.stage, at));
    var p := ProviderAfter(r, e, index, at);
    WriteRowProviders(r.attempts, index, e.body.row, r.stage, at, row.(provider := p));
  }

  lemma ObservedFollows(r: Record, e: Event, at: Option<Stamp>)
    requires e.body.AttemptObserved?
    requires Ascending(r.attempts) && ApplyAttempt(r, e, at, false).Accept?
    ensures ProvidersFollow(r, e, at, ApplyAttempt(r, e, at, false).value)
  {
    hide SortRows, SetRow;
    var index := NumberOf(e.body.attempt.value);
    var row := RowAt(r.attempts, index).value;
    SetRowProviders(r.attempts, index, row.(provider := ProviderAfter(r, e, index, at)));
  }

  /** Rewriting a row through upsert without touching its provider keeps every provider. */
  lemma SameProviderFollows(r: Record, e: Event, at: Option<Stamp>, s: Record, index: int, row: AttemptRow)
    requires (e.body.StageStarted? || e.body.StageObserved?) && Ascending(r.attempts)
    requires row.index == index && row.provider == ProviderOf(r.attempts, index)
    requires s.attempts == SetRow(Upsert(r.attempts, index, e.body.row, r.stage, at), index, row)
    ensures ProvidersFollow(r, e, at, s)
  {
    hide Upsert, SetRow, ProviderOf;
    WriteRowProviders(r.attempts, index, e.body.row, r.stage, at, row);
  }

  /** The row an upsert finds has the provider the index had before. */
  lemma UpsertedProvider(rows: seq<AttemptRow>, index: int, seed: RowSeed, stage: Stage, at: Option<Stamp>)
    requires Ascending(rows)
    ensures var row := RowAt(Upsert(rows, index, seed, stage, at), index);
      row.Some? && row.value.index == index && row.value.provider == ProviderOf(rows, index)
  {
    hide Upsert;
    UpsertLooksUp(rows, index, seed, stage, at);
  }

  lemma {:induction false} StartedFollows(r: Record, e: Event, at: Option<Stamp>)
    requires e.body.StageStarted? && Ascending(r.attempts) && ApplyByType(r, e, at, false).Accept?
    ensures ProvidersFollow(r, e, at, ApplyByType(r, e, at, false).value)
  {
    hide Upsert, SetRow, RowAt, ProviderOf, ProvidersFollow, FreshRow;
    var b, index := e.body, NumberOf(e.body.attempt.value);
    UpsertedProvider(r.attempts, index, b.row, r.stage, at);
    var row := RowAt(Upsert(r.attempts, index, b.row, r.stage, at), index).value;
    var row' := row.(state := Some("dispatched"), runId := Either(b.row.runId, row.runId));
    SameProviderFollows(r, e, at, ApplyByType(r, e, at, false).value, index, row');
  }

  lemma {:induction false} ObservedRowFollows(r: Record, e: Event, at: Option<Stamp>)
    requires e.body.StageObserved? && Ascending(r.attempts) && ApplyByType(r, e, at, false).Accept?
    ensures ProvidersFollow(r, e, at, ApplyByType(r, e, at, false).value)
  {
    hide Upsert, SetRow, RowAt, ProviderOf, ProvidersFollow, FreshRow;
    var b, index := e.body, NumberOf(e.body.attempt.value);
    UpsertedProvider(r.attempts, index, b.row, r.stage, at);
    var row := RowAt(Upsert(r.attempts, index, b.row, r.stage, at), index).value;
    var state := Either(b.state, row.state);
    var row' := row.(state := state, outcome := Either(b.outcome, row.outcome), runId := Either(b.row.runId, row.runId),
                     finishedAt := if state.Some? && state.value in SETTLED_STATES then at else row.finishedAt);
    SameProviderFollows(r, e, at, ApplyByType(r, e, at, false).value, index, row');
  }

  lemma StageFollows(r: Record, e: Event, at: Option<Stamp>)
    requires e.body.StageStarted? || e.body.StageObserved?
    requires Ascending(r.attempts) && ApplyByType(r, e, at, false).Accept?
    ensures ProvidersFollow(r, e, at, ApplyByType(r, e, at, false).value)
  {
    hide SortRows, Find, FreshRow, ProviderOf, ProviderAfter, Upsert, SetRow;
    if e.body.StageStarted? {
      StartedFollows(r, e, at);
    } else {
      ObservedRowFollows(r, e, at);
    }
  }

  lemma TipsKeepAttempts(r: Record, c: Candidate)
    ensures NewTip(r, c, true).attempts == r.attempts
    ensures r.candidate.Some? ==> SameTip(r, c).attempts == r.attempts
  {
  }

  lemma SettleFollows(r: Record, b: Body, at: Option<Stamp>)
    requires b.Pin() && b.pinned.Some? && Ascending(r.attempts)
    ensures var s := SettlePin(r, b, at);
      Ascending(s.attempts) && forall j :: ProviderOf(s.attempts, j) == ProviderOf(r.attempts, j)
  {
    hide ProviderOf, Find;
    var s := SettlePin(r, b, at);
    if s.attempts != r.attempts {
      var index := b.pinned.value.producedBy.value;
      var k := Find(r.attempts, index);
      RowFound(r.attempts, index);
      assert s.attempts == SetRow(r.attempts, index, s.attempts[k]);
      SetRowProviders(r.attempts, index, s.attempts[k]);
    }
  }

  lemma RowFound(rows: seq<AttemptRow>, index: int)
    requires Find(rows, index) < |rows|
    ensures rows[Find(rows, index)].index == index
    ensures RowAt(rows, index) == Some(rows[Find(rows, index)]) && ProviderOf(rows, index) == rows[Find(rows, index)].provider
  {
  }

  lemma {:induction false} PinFollows(r: Record, e: Event, at: Option<Stamp>)
    requires e.body.Pin() && Ascending(r.attempts) && PinCandidate(r, e.body, at, e.marked, false).Accept?
    ensures ProvidersFollow(r, e, at, PinCandidate(r, e.body, at, e.marked, false).value)
  {
    hide SortRows, SameTip, NewTip, SettlePin;
    var base := if r.candidate.Some? && IdText(r.candidate.value.id) == IdText(e.body.pinned.value.id)
                then SameTip(r, e.body.pinned.value) else NewTip(r, e.body.pinned.value, true);
    assert PinCandidate(r, e.body, at, e.marked, false).value == SettlePin(base, e.body, at);
    TipsKeepAttempts(r, e.body.pinned.value);
    SettleFollows(base, e.body, at);
  }

  lemma {:induction false} EventFollows(r: Record, e: Event, at: Option<Stamp>)
    requires Ascending(r.attempts) && ApplyByType(r, e, at, false).Accept?
    ensures ProvidersFollow(r, e, at, ApplyByType(r, e, at, false).value)
  {
    hide ApplyAttempt, PinCandidate, ProviderOf;
    if e.body.ProviderEvent() {
      if e.body.AttemptObserved? {
        ObservedFollows(r, e, at);
      } else {
        SubmitFollows(r, e, at);
      }
    } else if e.body.Pin() {
      PinFollows(r, e, at);
    } else if e.body.StageStarted? || e.body.StageObserved? {
      StageFollows(r, e, at);
    } else {
      AttemptsUntouched(r, e, at);
    }
  }

  lemma AttemptsUntouched(r: Record, e: Event, at: Option<Stamp>)
    requires !e.body.ProviderEvent() && !e.body.Pin() && !e.body.StageStarted? && !e.body.StageObserved?
    requires ApplyByType(r, e, at, false).Accept?
    ensures ApplyByType(r, e, at, false).value.attempts == r.attempts
  {
  }

  // ---------- the environment law ----------

  /** The states the journal recorded for one attempt's environment, oldest first. */
  function Observations(journal: seq<Row>, index: int): seq<string> {
    if journal == [] then []
    else
      var row := journal[|journal| - 1];
      Observations(journal[..|journal| - 1], index) + ObservedBy(row, index)
  }

  function ObservedBy(row: Row, index: int): seq<string> {
    if row.Recorded? && row.event.body.AttemptObserved? && row.event.body.attempt.Some?
       && NumberOf(row.event.body.attempt.value) == index
    then [row.event.body.observed]
    else []
  }

  function SubmittingKey(x: string, index: int): string {
    x + ":attempt.submitting:" + IntText(index)
  }

  function SubmittedKey(x: string, index: int): string {
    x + ":attempt.submitted:" + IntText(index)
  }

  function TransitionKey(x: string, index: int, n: nat, state: string): string {
    x + ":attempt.observed:" + IntText(index) + ":" + NatText(n) + ":" + state
  }

  /** A record's provider against the journal: the submit request came first, the
      handle only after its own row, and `observedSeq` counts exactly the recorded
      states, neighbours distinct, nothing after a terminal one. */
  ghost predicate EnvironmentLaw(sys: System, index: int) {
    var obs := Observations(sys.journal, index);
    var seen := SeenKeys(sys.journal);
    var x := sys.record.pins.executionId;
    match ProviderOf(sys.record.attempts, index)
    case None => obs == []
    case Some(p) =>
      && 1 <= index <= MAX_SAFE_INTEGER
      && p.request.Some?
      && ValidProviderId(p.id) && ValidSubmitKey(Some(p.submitKey))
      && SubmittingKey(x, index) in seen
      && (p.handle != JNull ==> ValidHandle(p.handle) && SubmittedKey(x, index) in seen)
      && p.observedSeq == |obs|
      && (obs == [] ==> p.lastState.None?)
      && (obs != [] ==> && p.handle != JNull
                        && p.lastState == Some(obs[|obs| - 1])
                        && TransitionKey(x, index, |obs|, obs[|obs| - 1]) in seen)
      && (forall i | 0 <= i < |obs| - 1 :: obs[i] != obs[i + 1] && obs[i] !in TERMINAL_OBSERVED)
  }

  ghost predicate Environments(sys: System) {
    Ascending(sys.record.attempts) && forall index :: EnvironmentLaw(sys, index)
  }

  lemma ObservationsAppend(journal: seq<Row>, row: Row, index: int)
    ensures Observations(journal + [row], index) == Observations(journal, index) + ObservedBy(row, index)
  {
    assert (journal + [row])[..|journal|] == journal;
  }

  /** The law survives a row that adds a key and no observation, when the provider stays. */
  lemma LawFrame(sys: System, next: System, row: Row, index: int)
    requires EnvironmentLaw(sys, index)
    requires next.journal == sys.journal + [row] && ObservedBy(row, index) == []
    requires next.record.pins == sys.record.pins
    requires ProviderOf(next.record.attempts, index) == ProviderOf(sys.record.attempts, index)
    ensures EnvironmentLaw(next, index)
  {
    ObservationsAppend(sys.journal, row, index);
    SeenKeysAppend(sys.journal, row);
    assert Observations(next.journal, index) == Observations(sys.journal, index);
  }

  /** One accepted live event, seen as a step of the system. */
  ghost predicate EventStep(sys: System, e: Event, key: string, at: Option<Stamp>, next: System) {
    && (e.body.ProviderEvent() ==>
          e.key.None? && AttemptIndex(e.body.attempt).Some? && e.body.attempt.value.NumberAttempt?)
    && LogKey(sys.record, e, false) == Some(key)
    && key !in SeenKeys(sys.journal)
    && (e.body.ProviderEvent() ==> HandleConflict(sys.record, e).None?)
    && ApplyByType(sys.record, e, at, false).Accept?
    && next.record.pins == sys.record.pins
    && next.record.attempts == ApplyByType(sys.record, e, at, false).value.attempts
    && next.journal == sys.journal + [Recorded(e.(key := Some(key)), next.record.sequence)]
  }

  lemma SubmittingKeepsLaw(sys: System, e: Event, key: string, at: Option<Stamp>, next: System)
    requires Environments(sys) && EventStep(sys, e, key, at, next) && e.body.AttemptSubmitting?
    ensures EnvironmentLaw(next, NumberOf(e.body.attempt.value))
  {
    hide Observations, SeenKeys, SetRow, WithProvider, PinCandidate, ProviderOf;
    var index := NumberOf(e.body.attempt.value);
    var row := Recorded(e.(key := Some(key)), next.record.sequence);
    EventFollows(sys.record, e, at);
    ObservationsAppend(sys.journal, row, index);
    SeenKeysAppend(sys.journal, row);
    assert EnvironmentLaw(sys, index);
    assert key == SubmittingKey(sys.record.pins.executionId, index);
  }

  lemma SubmittedKeepsLaw(sys: System, e: Event, key: string, at: Option<Stamp>, next: System)
    requires Environments(sys) && EventStep(sys, e, key, at, next) && e.body.AttemptSubmitted?
    ensures EnvironmentLaw(next, NumberOf(e.body.attempt.value))
  {
    hide Observations, SeenKeys, SetRow, WithProvider, PinCandidate, ProviderOf;
    var index := NumberOf(e.body.attempt.value);
    var row := Recorded(e.(key := Some(key)), next.record.sequence);
    EventFollows(sys.record, e, at);
    ObservationsAppend(sys.journal, row, index);
    SeenKeysAppend(sys.journal, row);
    assert EnvironmentLaw(sys, index);
    assert key == SubmittedKey(sys.record.pins.executionId, index);
    assert Observations(next.journal, index) == Observations(sys.journal, index);
  }

  lemma ObservedAccepted(r: Record, e: Event, at: Option<Stamp>)
    requires e.body.AttemptObserved? && ApplyByType(r, e, at, false).Accept?
    ensures e.body.attempt.Some?
    ensures var p := ProviderOf(r.attempts, NumberOf(e.body.attempt.value));
      p.Some? && p.value.handle != JNull && !(p.value.lastState.Some? && p.value.lastState.value in TERMINAL_OBSERVED)
  {
    hide SetRow;
  }

  /** An observation is keyed on the transition it repeats or the next one it makes. */
  lemma ObservedKeyOf(sys: System, e: Event, index: int, n: nat)
    requires e.body.AttemptObserved? && e.body.attempt == Some(NumberAttempt(index)) && AttemptIndex(e.body.attempt).Some?
    requires ProviderOf(sys.record.attempts, index).Some? && ProviderOf(sys.record.attempts, index).value.observedSeq == n
    ensures var p, x := ProviderOf(sys.record.attempts, index).value, sys.record.pins.executionId;
      LogKey(sys.record, e, false)
        == Some(TransitionKey(x, index, if p.lastState == Some(e.body.observed) then n else n + 1, e.body.observed))
  {
    hide ProviderOf;
  }

  lemma ObservedKeepsLaw(sys: System, e: Event, key: string, at: Option<Stamp>, next: System)
    requires Environments(sys) && EventStep(sys, e, key, at, next) && e.body.AttemptObserved?
    ensures EnvironmentLaw(next, NumberOf(e.body.attempt.value))
  {
    hide ApplyAttempt, ProviderOf, SeenKeys, Observations;
    var index := NumberOf(e.body.attempt.value);
    var row := Recorded(e.(key := Some(key)), next.record.sequence);
    EventFollows(sys.record, e, at);
    ObservationsAppend(sys.journal, row, index);
    SeenKeysAppend(sys.journal, row);
    ObservedAccepted(sys.record, e, at);
    assert EnvironmentLaw(sys, index);
    var obs := Observations(sys.journal, index);
    ObservedKeyOf(sys, e, index, |obs|);
    assert Observations(next.journal, index) == obs + [e.body.observed];
  }

  lemma EventKeepsEnvironments(sys: System, e: Event, key: string, at: Option<Stamp>, next: System)
    requires Environments(sys) && EventStep(sys, e, key, at, next)
    ensures Environments(next)
  {
    hide ApplyByType, EnvironmentLaw, Observations, SeenKeys, HandleConflict, DerivedKey;
    var row := Recorded(e.(key := Some(key)), next.record.sequence);
    EventFollows(sys.record, e, at);
    forall index
      ensures EnvironmentLaw(next, index)
    {
      assert EnvironmentLaw(sys, index);
      assert ProviderOf(next.record.attempts, index) == ProviderAfter(sys.record, e, index, at);
      if e.body.ProviderEvent() && NumberOf(e.body.attempt.value) == index {
        if e.body.AttemptSubmitting? {
          SubmittingKeepsLaw(sys, e, key, at, next);
        } else if e.body.AttemptSubmitted? {
          SubmittedKeepsLaw(sys, e, key, at, next);
        } else {
          ObservedKeepsLaw(sys, e, key, at, next);
        }
      } else {
        LawFrame(sys, next, row, index);
      }
    }
  }

  /** Every change the event door makes is one such step. */
  lemma DoorIsEventStep(sys: System, caller: Caller, fence: Option<int>, event: Event, now: Stamp) returns (e: Event, key: string)
    requires EventDoor(sys, caller, fence, event, now) != sys
    ensures EventStep(sys, e, key, Either(e.at, Some(now)), EventDoor(sys, caller, fence, event, now))
    ensures Admit(event, fence, now).Accept?
    ensures e == var a := Admit(event, fence, now).value; if a.body.ProviderEvent() then Canonical(a) else a
  {
    hide ApplyByType, DerivedKey, HandleConflict, SeenKeys, NormalReference;
    AdmitStamps(event, fence, now);
    var a := Admit(event, fence, now).value;
    e := if a.body.ProviderEvent() then Canonical(a) else a;
    key := ApplyEvent(sys.record, a, SeenKeys(sys.journal), Some(now), false).key;
    ApplyKeepsOwner(sys.record, e, Either(e.at, Some(now)));
  }

  lemma OwnershipKeepsEnvironments(sys: System, next: System)
    requires Environments(sys)
    requires next.record.attempts == sys.record.attempts && next.record.pins == sys.record.pins
    requires next.journal == sys.journal
             || (|next.journal| == |sys.journal| + 1 && next.journal[..|sys.journal|] == sys.journal
                 && next.journal[|sys.journal|].OwnershipChanged?)
    ensures Environments(next)
  {
    hide EnvironmentLaw, ProviderOf;
    forall index
      ensures EnvironmentLaw(next, index)
    {
      assert EnvironmentLaw(sys, index);
      if next.journal == sys.journal {
        LawStays(sys, next, index);
      } else {
        var row := next.journal[|sys.journal|];
        assert next.journal == sys.journal + [row];
        LawFrame(sys, next, row, index);
      }
    }
  }

  lemma LawStays(sys: System, next: System, index: int)
    requires EnvironmentLaw(sys, index)
    requires next.record.attempts == sys.record.attempts && next.record.pins == sys.record.pins && next.journal == sys.journal
    ensures EnvironmentLaw(next, index)
  {
    hide Observations, SeenKeys, ProviderOf;
  }

  /** The ownership calls touch neither attempts nor pins, and journal at most one row. */
  lemma OwnershipCallsFrame(sys: System, a: Action, now: Stamp)
    requires !a.DoEvent?
    ensures var next := Step(sys, a, now);
      && next.record.attempts == sys.record.attempts && next.record.pins == sys.record.pins
      && (next.journal == sys.journal
          || (|next.journal| == |sys.journal| + 1 && next.journal[..|sys.journal|] == sys.journal
              && next.journal[|sys.journal|].OwnershipChanged?))
  {
  }

  lemma StepKeepsEnvironments(sys: System, a: Action, now: Stamp)
    requires Environments(sys)
    ensures Environments(Step(sys, a, now))
  {
    hide EnvironmentLaw, EventDoor, Environments, EventStep, Claim, Renew, Release, ForceRelease, Admit;
    var next := Step(sys, a, now);
    if a.DoEvent? {
      if next != sys {
        var e, key := DoorIsEventStep(sys, a.caller, a.fence, a.event, now);
        EventKeepsEnvironments(sys, e, key, Either(e.at, Some(now)), next);
      }
    } else {
      OwnershipCallsFrame(sys, a, now);
      OwnershipKeepsEnvironments(sys, next);
    }
  }

  /** The environment law on every attempt, at every point of every run. */
  lemma {:induction false} RunKeepsEnvironments(s: Spec, calls: Calls)
    ensures Environments(Run(s, calls))
  {
    if calls == [] {
      forall index
        ensures EnvironmentLaw(Open(s), index)
      {
        assert Observations([], index) == [];
      }
    } else {
      RunKeepsEnvironments(s, calls[..|calls| - 1]);
      StepKeepsEnvironments(Run(s, calls[..|calls| - 1]), calls[|calls| - 1].0, calls[|calls| - 1].1);
    }
  }

  // ---------- what the law gives a worker ----------

  /** The environment of `before` is the one of `after`, possibly further along. */
  ghost predicate SameEnvironment(before: Provider, after: Provider) {
    && after.id == before.id
    && after.submitKey == before.submitKey
    && after.request == before.request
    && (before.handle != JNull ==> after.handle == before.handle)
    && before.observedSeq <= after.observedSeq
    && (before.lastState.Some? && before.lastState.value in TERMINAL_OBSERVED ==>
          after.lastState == before.lastState && after.observedSeq == before.observedSeq)
  }

  /** How one call may change one attempt's environment: it appears only as a
      persisted request without a handle, and a handle only on a persisted request. */
  ghost predicate EnvironmentStep(before: Option<Provider>, after: Option<Provider>) {
    match before
    case None => after.Some? ==> after.value.handle == JNull && after.value.request.Some? && after.value.observedSeq == 0
    case Some(p) => after.Some? && SameEnvironment(p, after.value) && (p.handle == JNull && after.value.handle != JNull ==> p.request.Some?)
  }

  /** The provider event itself. */
  lemma ProviderEventMoves(sys: System, e: Event, key: string, at: Option<Stamp>, next: System, index: int)
    requires EventStep(sys, e, key, at, next) && EnvironmentLaw(sys, index)
    requires e.body.ProviderEvent() && e.body.attempt.Some? && NumberOf(e.body.attempt.value) == index
    ensures EnvironmentStep(ProviderOf(sys.record.attempts, index), ProviderAfter(sys.record, e, index, at))
  {
    hide Observations, SeenKeys, DerivedKey, SetRow, WithProvider, ValidHandle, ValidSubmitKey, ValidProviderId, SubmittingKey,
         SubmittedKey, TransitionKey, Ascending;
    assert ApplyAttempt(sys.record, e, at, false).Accept?;
  }

  lemma {:induction false} EventMovesEnvironment(sys: System, e: Event, key: string, at: Option<Stamp>, next: System, index: int)
    requires Environments(sys) && EventStep(sys, e, key, at, next)
    ensures EnvironmentStep(ProviderOf(sys.record.attempts, index), ProviderOf(next.record.attempts, index))
  {
    hide Observations, SeenKeys, DerivedKey, SetRow, WithProvider, ApplyAttempt, ProviderOf, HandleConflict, LogKey, ApplyByType;
    EventFollows(sys.record, e, at);
    assert ProviderOf(next.record.attempts, index) == ProviderAfter(sys.record, e, index, at);
    assert EnvironmentLaw(sys, index);
    if e.body.ProviderEvent() && NumberOf(e.body.attempt.value) == index {
      ProviderEventMoves(sys, e, key, at, next, index);
    }
  }

  lemma StillEnvironment(sys: System, index: int)
    requires Environments(sys)
    ensures EnvironmentStep(ProviderOf(sys.record.attempts, index), ProviderOf(sys.record.attempts, index))
  {
  }

  lemma {:induction false} StepMovesEnvironment(sys: System, a: Action, now: Stamp, index: int)
    requires Environments(sys)
    ensures EnvironmentStep(ProviderOf(sys.record.attempts, index), ProviderOf(Step(sys, a, now).record.attempts, index))
  {
    hide ApplyByType, EventStep, EnvironmentStep, Admit, ApplyEvent, ProviderOf;
    var next := Step(sys, a, now);
    if a.DoEvent? && next != sys {
      var e, key := DoorIsEventStep(sys, a.caller, a.fence, a.event, now);
      EventMovesEnvironment(sys, e, key, Either(e.at, Some(now)), next, index);
    } else {
      if !a.DoEvent? {
        OwnershipCallsFrame(sys, a, now);
      }
      StillEnvironment(sys, index);
    }
  }

  /** One environment per attempt: from any point of a run to any later point the
      provider, its submit key, its request and its handle are the same, and a
      terminal state has not moved. */
  lemma {:induction false} OneEnvironmentPerAttempt(s: Spec, calls: Calls, i: nat, index: int)
    requires i <= |calls| && ProviderOf(Run(s, calls[..i]).record.attempts, index).Some?
    ensures var after := ProviderOf(Run(s, calls).record.attempts, index);
      after.Some? && SameEnvironment(ProviderOf(Run(s, calls[..i]).record.attempts, index).value, after.value)
    decreases |calls| - i
  {
    if i == |calls| {
      assert calls[..i] == calls;
    } else {
      var init := calls[..|calls| - 1];
      assert init[..i] == calls[..i];
      OneEnvironmentPerAttempt(s, init, i, index);
      RunKeepsEnvironments(s, init);
      StepMovesEnvironment(Run(s, init), calls[|calls| - 1].0, calls[|calls| - 1].1, index);
    }
  }

  /** A handle is only ever recorded on an attempt whose submit request was
      persisted by an earlier call. */
  lemma {:induction false} HandleComesAfterSubmit(s: Spec, calls: Calls, a: Action, now: Stamp, index: int)
    ensures var before := ProviderOf(Run(s, calls).record.attempts, index);
      var after := ProviderOf(Step(Run(s, calls), a, now).record.attempts, index);
      after.Some? && after.value.handle != JNull && (before.None? || before.value.handle == JNull) ==>
        before.Some? && before.value.request.Some? && before.value.submitKey == after.value.submitKey
  {
    RunKeepsEnvironments(s, calls);
    StepMovesEnvironment(Run(s, calls), a, now, index);
  }

  /** An event says again what the record already holds of its attempt, its submit key under either
      spelling. */
  ghost predicate Resends(r: Record, e: Event) {
    && e.body.ProviderEvent() && AttemptIndex(e.body.attempt).Some?
    && var p := ProviderOf(r.attempts, NumberOf(e.body.attempt.value));
      && p.Some?
      && (e.body.AttemptObserved? || (e.body.provider == p.value.id && SubmitKeyOf(e) == Some(p.value.submitKey)))
      && (e.body.AttemptSubmitted? ==> e.body.handle == p.value.handle && p.value.handle != JNull)
      && (e.body.AttemptObserved? ==> p.value.lastState == Some(e.body.observed))
  }

  /** An identical resend is always a no-op: whoever sends it, under whatever fence,
      expired or terminal, it is answered as a replay and nothing changes. */
  lemma {:induction false} IdenticalResendIsNoOp(s: Spec, calls: Calls, caller: Caller, e: Event, now: Stamp)
    requires Resends(Run(s, calls).record, e)
    ensures var sys := Run(s, calls);
      && ApplyEvent(sys.record, e, SeenKeys(sys.journal), Some(now), false).Replayed?
      && Step(sys, DoEvent(caller, e.fence, e), now) == sys
  {
    hide Environments, ApplyEvent, SeenKeys, Run, ProviderOf, EnvironmentLaw;
    var sys := Run(s, calls);
    var index := NumberOf(e.body.attempt.value);
    RunKeepsEnvironments(s, calls);
    assert EnvironmentLaw(sys, index);
    ResendIsReplayed(sys, e, now);
    var admitted := Admit(e, e.fence, now);
    if admitted.Accept? {
      AdmittedResends(sys.record, e, now);
      ResendIsReplayed(sys, admitted.value, now);
    }
  }

  /** The door moves a submit key to its journaled spelling; the event still says the same. */
  lemma AdmittedResends(r: Record, e: Event, now: Stamp)
    requires Resends(r, e) && Admit(e, e.fence, now).Accept?
    ensures Resends(r, Admit(e, e.fence, now).value)
  {
    hide ProviderOf, AttemptIndex;
  }

  /** The key an identical resend derives, under the canonical attempt number. */
  lemma ResendKey(sys: System, c: Event)
    requires Environments(sys) && Resends(sys.record, c) && c.body.attempt.value.NumberAttempt?
    ensures HandleConflict(sys.record, c).None?
    ensures LogKey(sys.record, c, false).Some? && LogKey(sys.record, c, false).value in SeenKeys(sys.journal)
    ensures LogKey(sys.record, c, false).value != ""
  {
    hide ProviderOf, SeenKeys, Observations;
    var index := NumberOf(c.body.attempt.value);
    assert EnvironmentLaw(sys, index);
    if c.body.AttemptObserved? {
      ObservedKeyOf(sys, c, index, |Observations(sys.journal, index)|);
    } else {
      var x := sys.record.pins.executionId;
      assert LogKey(sys.record, c, false)
          == Some(if c.body.AttemptSubmitting? then SubmittingKey(x, index) else SubmittedKey(x, index));
    }
  }

  lemma ResendIsReplayed(sys: System, e: Event, now: Stamp)
    requires Environments(sys) && Resends(sys.record, e)
    ensures ApplyEvent(sys.record, e, SeenKeys(sys.journal), Some(now), false).Replayed?
  {
    hide DerivedKey, HandleConflict, ApplyByType, ProviderOf, EnvironmentLaw, Environments, OwnershipLive;
    var c := Canonical(e);
    ResendKey(sys, c);
  }
}
