/** The flat-key editor: one key's lines replaced, and exactly when every other field and every edge is as before
    (`lib/kernel/frontmatter.js`). */
module FrontmatterKeyEdit {
  import opened Common
  import opened ContentText
  import opened FrontmatterScalar
  import opened FrontmatterLines
  import opened FrontmatterLexer
  import opened FrontmatterCore
  import opened FrontmatterEdit
  import opened FrontmatterFold
  import opened FrontmatterCut
  import opened FrontmatterRanges
  import opened FrontmatterMarks

  // ---------- where each entry stands ----------

  function NextStart(entries: seq<Entry>, k: nat, i: nat): nat {
    if k + 1 < |entries| then entries[k + 1].start else i
  }

  predicate EntryPlaced(vs: seq<View>, entries: seq<Entry>, k: nat, i: nat)
    requires k < |entries| && i <= |vs|
  {
    var e := entries[k];
    && e.start < e.end <= NextStart(entries, k, i) <= i
    && HeaderOf(vs[e.start], e.key)
    && (e.kind == EdgesEntry <==> e.key == EDGES && vs[e.start].KeyLine?)
  }

  predicate StartsAt(entries: seq<Entry>, j: nat) {
    exists k :: 0 <= k < |entries| && entries[k].start == j
  }

  /** Entries start at their headers, in order, and every header starts one. */
  ghost predicate EntriesPlaced(vs: seq<View>, entries: seq<Entry>, i: nat)
    requires i <= |vs|
  {
    && (forall k | 0 <= k < |entries| :: EntryPlaced(vs, entries, k, i))
    && (forall j | 0 <= j < i && IsHeader(vs[j]) :: StartsAt(entries, j))
  }

  lemma {:induction false} EntriesStand(vs: seq<View>, i: nat)
    requires i <= |vs|
    ensures EntriesPlaced(vs, Before(vs, i).entries, i)
  {
    hide Step, EntriesPlaced, Extends;
    if i == 0 {
      NoEntries(vs);
    } else {
      var x := Before(vs, i - 1);
      EntriesStand(vs, i - 1);
      EntriesAfter(x, i - 1, vs[i - 1]);
      if IsHeader(vs[i - 1]) {
        HeaderEntry(vs, x.entries, i - 1);
      } else {
        LineEntry(vs, x.entries, i - 1);
      }
    }
  }

  lemma NoEntries(vs: seq<View>)
    ensures EntriesPlaced(vs, EMPTY.entries, 0)
  {
  }

  lemma HeaderEntry(vs: seq<View>, entries: seq<Entry>, i: nat)
    requires i < |vs| && EntriesPlaced(vs, entries, i) && IsHeader(vs[i])
    ensures EntriesPlaced(vs, entries + [Entry(KindOf(vs[i]), vs[i].key, i, i + 1, false)], i + 1)
  {
    hide EntryPlaced, KindOf;
    var next := i + 1;
    var es := entries + [Entry(KindOf(vs[i]), vs[i].key, i, next, false)];
    forall k | 0 <= k < |es|
      ensures EntryPlaced(vs, es, k, next)
    {
      if k < |entries| {
        assert EntryPlaced(vs, entries, k, i);
        EntryStays(vs, entries, es, k, i);
      } else {
        NewEntryPlaced(vs, entries, i);
      }
    }
    forall j | 0 <= j < i + 1 && IsHeader(vs[j])
      ensures StartsAt(es, j)
    {
      if j < i {
        var k :| 0 <= k < |entries| && entries[k].start == j;
        assert es[k].start == j;
      } else {
        assert es[|entries|].start == j;
      }
    }
  }

  lemma NewEntryPlaced(vs: seq<View>, entries: seq<Entry>, i: nat)
    requires i < |vs| && IsHeader(vs[i])
    ensures EntryPlaced(vs, entries + [Entry(KindOf(vs[i]), vs[i].key, i, i + 1, false)], |entries|, i + 1)
  {
    hide IsListField, Trim;
  }

  /** An entry stays placed when another follows it, or when the last one reaches further. */
  lemma EntryStays(vs: seq<View>, entries: seq<Entry>, es: seq<Entry>, k: nat, i: nat)
    requires i < |vs| && k < |entries| && EntryPlaced(vs, entries, k, i)
    requires es == entries || es == ExtendTo(entries, i) || (es != [] && es[..|es| - 1] == entries && es[|entries|].start == i)
    ensures EntryPlaced(vs, es, k, i + 1)
  {
  }

  /** A line that is no header leaves the entries alone, or makes the last one reach it. */
  lemma LineEntry(vs: seq<View>, entries: seq<Entry>, i: nat)
    requires i < |vs| && EntriesPlaced(vs, entries, i) && !IsHeader(vs[i])
    ensures EntriesPlaced(vs, entries, i + 1) && EntriesPlaced(vs, ExtendTo(entries, i), i + 1)
  {
    hide EntryPlaced;
    var es, next := ExtendTo(entries, i), i + 1;
    forall k | 0 <= k < |entries|
      ensures EntryPlaced(vs, entries, k, next) && EntryPlaced(vs, es, k, next)
    {
      EntryStays(vs, entries, entries, k, i);
      EntryStays(vs, entries, es, k, i);
    }
    forall j | 0 <= j < i + 1 && IsHeader(vs[j])
      ensures StartsAt(entries, j) && StartsAt(es, j)
    {
      var k :| 0 <= k < |entries| && entries[k].start == j;
      assert es[k].start == j;
    }
  }

  // ---------- the key's entries are its ranges ----------

  /** The entries of a key, `edges:` headers apart. */
  function OwnEntries(entries: seq<Entry>, key: Text): (own: seq<Entry>)
    ensures forall e :: e in own <==> e in entries && e.key == key && e.kind != EdgesEntry
  {
    if entries == [] then []
    else
      var last := entries[|entries| - 1];
      OwnEntries(entries[..|entries| - 1], key) + if last.key == key && last.kind != EdgesEntry then [last] else []
  }

  function FirstEdgesKey(entries: seq<Entry>): Option<nat> {
    if entries == [] then None
    else if entries[0].kind == EdgesEntry then Some(entries[0].start)
    else FirstEdgesKey(entries[1..])
  }

  lemma {:induction false} FirstIsAnEntry(entries: seq<Entry>)
    requires FirstEdgesKey(entries).Some?
    ensures exists e :: e in entries && e.kind == EdgesEntry && e.start == FirstEdgesKey(entries).value
  {
    if entries[0].kind != EdgesEntry {
      FirstIsAnEntry(entries[1..]);
    }
  }

  lemma {:induction false} OwnInOrder(entries: seq<Entry>, key: Text)
    requires InOrder(entries)
    ensures InOrder(OwnEntries(entries, key))
  {
    hide InOrder;
    if entries == [] {
      NoneInOrder();
    } else {
      var n := |entries| - 1;
      var front := OwnEntries(entries[..n], key);
      FrontInOrder(entries);
      OwnInOrder(entries[..n], key);
      forall e | e in front
        ensures e.end <= entries[n].start
      {
        assert e in entries[..n];
      }
      InOrderAppend(front, entries[n]);
      assert front + [] == front;
    }
  }

  lemma NoneInOrder()
    ensures InOrder([])
  {
  }

  lemma FrontInOrder(entries: seq<Entry>)
    requires InOrder(entries) && entries != []
    ensures var n := |entries| - 1;
            InOrder(entries[..n]) && entries[n].start < entries[n].end && forall e | e in entries[..n] :: e.end <= entries[n].start
  {
    EarlierRanges(entries, |entries| - 1);
  }

  lemma InOrderAppend(front: seq<Entry>, last: Entry)
    requires InOrder(front) && last.start < last.end && forall e | e in front :: e.end <= last.start
    ensures InOrder(front + [last])
  {
    assert front != [] ==> front[|front| - 1] in front;
  }

  lemma PlacedInOrder(vs: seq<View>, entries: seq<Entry>)
    requires EntriesPlaced(vs, entries, |vs|)
    ensures InOrder(entries)
  {
    hide HeaderOf;
    forall j | 0 <= j < |entries|
      ensures entries[j].start < entries[j].end <= NextStart(entries, j, |vs|)
    {
      assert EntryPlaced(vs, entries, j, |vs|);
    }
  }

  lemma HeaderStarts(vs: seq<View>, entries: seq<Entry>, key: Text, i: nat)
    requires EntriesPlaced(vs, entries, |vs|) && i < |vs| && HeaderOf(vs[i], key)
    ensures exists m :: 0 <= m < |entries| && entries[m].start == i
  {
    hide EntryPlaced;
    assert StartsAt(entries, i);
  }

  lemma HeadersAlike(v: View, k: Text, q: Text)
    requires HeaderOf(v, k) && HeaderOf(v, q)
    ensures k == q
  {
  }

  lemma EntryKey(vs: seq<View>, entries: seq<Entry>, m: nat)
    requires EntriesPlaced(vs, entries, |vs|) && m < |entries|
    ensures var e := entries[m];
            && e.start < e.end <= |vs| && HeaderOf(vs[e.start], e.key)
            && (e.key != EDGES ==> e.kind != EdgesEntry)
  {
    assert EntryPlaced(vs, entries, m, |vs|);
  }

  /** No header stands inside an entry. */
  lemma EntryIsLoose(vs: seq<View>, entries: seq<Entry>, m: nat)
    requires EntriesPlaced(vs, entries, |vs|) && m < |entries| && entries[m].start < entries[m].end <= |vs|
    ensures Loose(vs[entries[m].start + 1..entries[m].end])
  {
    hide EntryPlaced;
    var e := entries[m];
    var mids := vs[e.start + 1..e.end];
    PlacedInOrder(vs, entries);
    forall i | 0 <= i < |mids|
      ensures !IsHeader(mids[i])
    {
      var at := e.start + 1 + i;
      assert mids[i] == vs[at];
      if IsHeader(vs[at]) {
        assert StartsAt(entries, at);
        var j :| 0 <= j < |entries| && entries[j].start == at;
        EntriesApart(entries, m, j);
      }
    }
  }

  lemma EntriesApart(entries: seq<Entry>, m: nat, j: nat)
    requires InOrder(entries) && m < |entries| && j < |entries|
    ensures !(entries[m].start < entries[j].start < entries[m].end)
  {
    if m < j {
      EarlierRanges(entries, j);
    } else if j < m {
      EarlierRanges(entries, m);
    }
  }

  function OwnOf(vs: seq<View>, key: Text): seq<Entry> {
    OwnEntries(Before(vs, |vs|).entries, key)
  }

  lemma OwnAreWithin(vs: seq<View>, key: Text)
    ensures Within(OwnOf(vs, key), |vs|)
  {
    hide InOrder, EntryPlaced, Before, HeaderOf;
    var entries := Before(vs, |vs|).entries;
    var own := OwnEntries(entries, key);
    EntriesStand(vs, |vs|);
    PlacedInOrder(vs, entries);
    OwnInOrder(entries, key);
    if own != [] {
      var last := own[|own| - 1];
      assert last in own;
      var m :| 0 <= m < |entries| && entries[m] == last;
      EntryKey(vs, entries, m);
    }
  }

  lemma OwnAreTheKeys(vs: seq<View>, key: Text)
    requires AllSeen(vs) && key != EDGES
    ensures OwnRanges(vs, key, OwnOf(vs, key)) && HoldAll(vs, key, OwnOf(vs, key))
  {
    hide InOrder, EntryPlaced, Before, HeaderOf, Loose, Seen, EntriesPlaced;
    var entries := Before(vs, |vs|).entries;
    var own := OwnEntries(entries, key);
    OwnAreWithin(vs, key);
    EntriesStand(vs, |vs|);
    forall j | 0 <= j < |own|
      ensures OwnRange(vs, key, own[j])
    {
      assert own[j] in own;
      var m :| 0 <= m < |entries| && entries[m] == own[j];
      EntryKey(vs, entries, m);
      EntryIsLoose(vs, entries, m);
    }
    forall i | 0 <= i < |vs| && HeaderOf(vs[i], key)
      ensures exists j :: 0 <= j < |own| && own[j].start == i
    {
      HeaderStarts(vs, entries, key, i);
      var m :| 0 <= m < |entries| && entries[m].start == i;
      EntryKey(vs, entries, m);
      HeadersAlike(vs[i], key, entries[m].key);
      assert entries[m] in own;
    }
  }

  // ---------- when the edit is right ----------

  /** What the key's new line is seen as. */
  function LineOf(key: Text, value: Option<Text>): Option<View> {
    if value.Some? then Some(ViewOf(KeyText(key, value.value))) else None
  }

  /** What the caller can check before the edit: every cut is harmless, and the new line keeps its value. A key without
      lines may always be set. */
  ghost predicate KeyFits(vs: seq<View>, key: Text, value: Option<Text>)
    requires value.Some? ==> IsHeader(ViewOf(KeyText(key, value.value)))
  {
    var own := OwnOf(vs, key);
    OwnAreWithin(vs, key);
    own == [] || AllFit(vs, key, own, LineOf(key, value))
  }

  /** The key stands once, or no flow edge stands among its lines. */
  ghost predicate Plain(vs: seq<View>, key: Text) {
    OwnAreWithin(vs, key);
    |OwnOf(vs, key)| <= 1 || FlowFree(vs, OwnOf(vs, key))
  }

  /** The marks once the key is edited. */
  ghost predicate MarksEdited(vs: seq<View>, key: Text, line: Option<View>, now: seq<View>) {
    var own := OwnOf(vs, key);
    OwnAreWithin(vs, key);
    if own != [] then now == Edited(vs, own, line)
    else
      (line.None? && now == vs)
      || (line.Some? && exists q :: 0 <= q <= |vs| && FromHeader(vs[q..]) && now == vs[..q] + [line.value] + vs[q..])
  }

  /** A new line for a key that has none sets that field, and nothing else changes. */
  lemma {:induction false} NewLineActs(vs: seq<View>, key: Text, line: View, q: nat)
    requires q <= |vs| && FromHeader(vs[q..]) && NoHeaderOf(vs, key) && key != EDGES && AllSeen(vs)
    requires HeaderOf(line, key) && Seen(line) && !Outcome(vs).faulty
    ensures Right(key, Some(line), Outcome(vs), Outcome(vs[..q] + [line] + vs[q..]))
  {
    hide CoreRun, Outcome, Harmless, KeepsValue, SameBut, HeaderOf, ValueOf, Lookup, FromHeader, IsHeader, Zone, NoHeaderOf, AllSeen;
    var a, r := vs[..q], vs[q..];
    var mine := [line] + [] + [] + r;
    LinePutIn(vs, q, line);
    NewLineZone(key, line, r);
    OwnIsHeader(line, key);
    NewLineIsNoFault(a, key, line, r);
    AllSeenParts(vs, q);
    CutExactly(key, a, line, [], [], r);
    NothingHarms(CoreRun(START, a).mode, key, r);
    NoneHeadsRest(vs, key, q);
    ValueExactly(key, a, line, [], r);
    NothingBehind(line);
    SameButTurns(key, Outcome(vs), Outcome(a + mine));
  }

  lemma LinePutIn(vs: seq<View>, q: nat, line: View)
    requires q <= |vs|
    ensures var a, r := vs[..q], vs[q..];
            vs == a + r && [] + r == r && a + [line] + r == a + ([line] + [] + [] + r) && [line] + [] + r == [line] + [] + [] + r
  {
  }

  lemma NewLineIsNoFault(a: seq<View>, key: Text, line: View, r: seq<View>)
    requires Zone(key, line, [], [], r) && !Outcome(a + r).faulty
    ensures !Outcome(a + ([line] + [] + [] + r)).faulty
  {
    hide CoreRun, CoreFlush, Added, Zone;
    var c := CoreRun(START, a);
    RunConcat(START, a, [line] + [] + [] + r);
    RunConcat(START, a, r);
    CutEdges(key, c, line, [], [], r);
    assert [] + r == r;
  }

  lemma NewLineZone(k: Text, line: View, r: seq<View>)
    requires HeaderOf(line, k) && k != EDGES && FromHeader(r)
    ensures Zone(k, line, [], [], r)
  {
  }

  lemma AllSeenParts(vs: seq<View>, q: nat)
    requires q <= |vs| && AllSeen(vs)
    ensures AllSeen(vs[..q]) && AllSeen([])
  {
  }

  lemma NothingHarms(m: CoreMode, k: Text, r: seq<View>)
    ensures Harmless(m, k, [], [], r)
  {
    hide NoHeaderOf;
  }

  lemma NothingBehind(line: View)
    requires IsHeader(line)
    ensures KeepsValue(line, [])
  {
  }

  lemma NoneHeadsRest(vs: seq<View>, k: Text, q: nat)
    requires q <= |vs| && NoHeaderOf(vs, k)
    ensures NoHeaderOf(vs[q..], k)
  {
  }

  lemma SameButTurns(k: Text, a: Core, b: Core)
    ensures SameBut(k, a, b) <==> SameBut(k, b, a)
  {
    hide Lookup;
  }

  lemma NoneHeld(vs: seq<View>, k: Text)
    requires HoldAll(vs, k, [])
    ensures NoHeaderOf(vs, k)
  {
  }

  /** Among the marks: right whenever it fits, and only then if the key is plain. */
  lemma {:induction false} MarksEditExactly(vs: seq<View>, key: Text, value: Option<Text>, now: seq<View>)
    requires AllSeen(vs) && key != EDGES && !Outcome(vs).faulty && LineFor(key, LineOf(key, value))
    requires MarksEdited(vs, key, LineOf(key, value), now)
    ensures KeyFits(vs, key, value) ==> Right(key, LineOf(key, value), Outcome(vs), Outcome(now))
    ensures Plain(vs, key) && Right(key, LineOf(key, value), Outcome(vs), Outcome(now)) ==> KeyFits(vs, key, value)
  {
    hide Outcome, SameBut, AllFit, ViewOf, OwnRanges, HoldAll, FlowFree, AllSeen, OwnOf, Lookup, ValueOf, Seen, FromHeader;
    var own, line := OwnOf(vs, key), LineOf(key, value);
    OwnAreTheKeys(vs, key);
    OwnAreWithin(vs, key);
    if own != [] {
      if KeyFits(vs, key, value) {
        FittingEditActs(vs, key, own, line);
      }
      if Plain(vs, key) && Right(key, line, Outcome(vs), Outcome(now)) {
        RightEditFits(vs, key, own, line);
      }
    } else {
      NoneHeld(vs, key);
      if line.None? {
        NoHeaderNoField(vs, key);
        SameButSelf(key, Outcome(vs));
      } else {
        var q :| 0 <= q <= |vs| && FromHeader(vs[q..]) && now == vs[..q] + [line.value] + vs[q..];
        LineIsHeader(key, line);
        NewLineActs(vs, key, line.value, q);
      }
    }
  }

  lemma SameButSelf(k: Text, c: Core)
    ensures SameBut(k, c, c)
  {
  }

  // ---------- from marks to lines ----------

  lemma {:induction false} OwnAlike(reader: Reader, lines: seq<Text>, es: seq<Entry>, fs: seq<Entry>, key: Text)
    requires EntriesAlike(reader, lines, es, fs)
    ensures EntriesAlike(reader, lines, OwnEntries(es, key), OwnEntries(fs, key))
    decreases |es|
  {
    hide EntriesAlike, EntryAlike;
    FrontAlike(reader, lines, es, fs);
    if es != [] {
      var n := |es| - 1;
      var own, owned := OwnEntries(es[..n], key), OwnEntries(fs[..n], key);
      OwnAlike(reader, lines, es[..n], fs[..n], key);
      if es[n].key == key && es[n].kind != EdgesEntry {
        AppendAlike(reader, lines, own, owned, es[n], fs[n]);
      } else {
        assert own + [] == own && owned + [] == owned;
      }
    }
  }

  lemma FrontAlike(reader: Reader, lines: seq<Text>, es: seq<Entry>, fs: seq<Entry>)
    requires EntriesAlike(reader, lines, es, fs)
    ensures |es| == |fs|
    ensures es != [] ==> var n := |es| - 1;
                         && EntriesAlike(reader, lines, es[..n], fs[..n]) && EntryAlike(reader, lines, es[n], fs[n])
                         && es[n].key == fs[n].key && es[n].kind == fs[n].kind
  {
    hide Stands;
  }

  lemma AppendAlike(reader: Reader, lines: seq<Text>, es: seq<Entry>, fs: seq<Entry>, e: Entry, f: Entry)
    requires EntriesAlike(reader, lines, es, fs) && EntryAlike(reader, lines, e, f)
    ensures EntriesAlike(reader, lines, es + [e], fs + [f])
  {
    hide EntryAlike;
  }

  lemma {:induction false} FirstAlike(reader: Reader, lines: seq<Text>, es: seq<Entry>, fs: seq<Entry>)
    requires EntriesAlike(reader, lines, es, fs)
    ensures FirstEdgesKey(es).Some? <==> FirstEdgesKey(fs).Some?
    ensures FirstEdgesKey(es).Some? ==> Stands(reader, lines, FirstEdgesKey(es).value, FirstEdgesKey(fs).value)
    ensures HasEdgesKey(es) ==> FirstEdgesKey(es).Some?
    decreases |es|
  {
    hide Stands;
    if es != [] {
      assert EntryAlike(reader, lines, es[0], fs[0]);
      FirstAlike(reader, lines, es[1..], fs[1..]);
      if k :| 0 <= k < |es| && es[k].kind == EdgesEntry && k > 0 {
        assert es[1..][k - 1].kind == EdgesEntry;
      }
    }
  }

  /** The ranges to cut: no `edges:` entries, in order where their marks are. */
  ghost predicate Ranges(reader: Reader, lines: seq<Text>, own: seq<Entry>, marked: seq<Entry>) {
    && EntriesAlike(reader, lines, own, marked) && Within(marked, |Marks(reader, lines)|)
    && forall j | 0 <= j < |own| :: own[j].kind != EdgesEntry
  }

  lemma RangesInOrder(reader: Reader, lines: seq<Text>, own: seq<Entry>, marked: seq<Entry>)
    requires Ranges(reader, lines, own, marked)
    ensures |own| == |marked| && Within(own, |lines|)
  {
    hide Stands, Marks;
    forall j | 0 <= j < |own|
      ensures own[j].start < own[j].end <= |lines|
      ensures j < |own| - 1 ==> own[j].end <= own[j + 1].start
    {
      assert EntryAlike(reader, lines, own[j], marked[j]);
      StandsInOrder(reader, lines, own[j].end, marked[j].end, own[j].start, marked[j].start);
      StandsWithin(reader, lines, own[j].end, marked[j].end);
      if j < |own| - 1 {
        assert EntryAlike(reader, lines, own[j + 1], marked[j + 1]);
        StandsInOrder(reader, lines, own[j].end, marked[j].end, own[j + 1].start, marked[j + 1].start);
      }
    }
  }

  lemma StandsWithin(reader: Reader, lines: seq<Text>, i: nat, p: nat)
    requires Stands(reader, lines, i, p)
    ensures i <= |lines|
  {
  }

  /** Cutting the last range leaves the earlier ones where they are. */
  lemma RangesShrink(reader: Reader, lines: seq<Text>, own: seq<Entry>, marked: seq<Entry>)
    requires Ranges(reader, lines, own, marked) && own != [] && |own| == |marked|
    ensures var n := |own| - 1;
            var e, f := own[n], marked[n];
            && e.start <= e.end <= |lines| && f.start <= f.end <= |Marks(reader, lines)|
            && Marks(reader, Cut(lines, e.start, e.end)) == Cut(Marks(reader, lines), f.start, f.end)
            && Ranges(reader, Cut(lines, e.start, e.end), own[..n], marked[..n])
  {
    hide Stands, Marks;
    var n := |own| - 1;
    var e, f := own[n], marked[n];
    RangesInOrder(reader, lines, own, marked);
    EarlierRanges(own, n);
    assert EntryAlike(reader, lines, e, f);
    MarksCut(reader, lines, e.start, f.start, e.end, f.end);
    WithinFront(own, |lines|);
    WithinFront(marked, |Marks(reader, lines)|);
    var cut := Cut(lines, e.start, e.end);
    forall j | 0 <= j < n
      ensures EntryAlike(reader, cut, own[j], marked[j])
    {
      assert EntryAlike(reader, lines, own[j], marked[j]);
      assert own[j].end <= e.start;
      StandsBefore(reader, lines, cut, own[j].start, marked[j].start);
      StandsBefore(reader, lines, cut, own[j].end, marked[j].end);
    }
  }

  /** Cutting a key's ranges out of the lines is cutting them out of the marks. */
  lemma {:induction false} SplicedMarks(reader: Reader, lines: seq<Text>, own: seq<Entry>, marked: seq<Entry>)
    requires Ranges(reader, lines, own, marked)
    ensures Within(own, |lines|) && Within(marked, |Marks(reader, lines)|)
    ensures Marks(reader, Spliced(lines, own)) == Spliced(Marks(reader, lines), marked)
    decreases |own|
  {
    hide Marks, EntriesAlike;
    RangesInOrder(reader, lines, own, marked);
    if own != [] {
      var n := |own| - 1;
      var e, f := own[n], marked[n];
      WithinFront(own, |lines|);
      WithinFront(marked, |Marks(reader, lines)|);
      RangesShrink(reader, lines, own, marked);
      SplicedMarks(reader, Cut(lines, e.start, e.end), own[..n], marked[..n]);
    }
  }

  lemma FirstStands(reader: Reader, lines: seq<Text>, own: seq<Entry>, marked: seq<Entry>)
    requires Ranges(reader, lines, own, marked) && own != [] && |own| == |marked|
    ensures Stands(reader, lines, own[0].start, marked[0].start)
  {
    hide Stands;
    assert EntryAlike(reader, lines, own[0], marked[0]);
  }

  lemma SplicedFront(lines: seq<Text>, own: seq<Entry>)
    requires Within(own, |lines|) && own != []
    ensures own[0].start <= |lines| && own[0].start <= |Spliced(lines, own)|
    ensures Spliced(lines, own)[..own[0].start] == lines[..own[0].start]
  {
    SplicedThenSet(lines, own, None);
  }

  lemma KeyLineIsHeader(key: Text, value: Text)
    requires IsKey(key) && OneLine(value)
    ensures HeaderOf(ViewOf(KeyText(key, value)), key)
  {
    hide IsListField, OneLine;
    var s, rest := KeyText(key, value), [COLON, SPACE] + value;
    assert s == key + rest;
    RunOf(key, rest);
    assert s[|key| + 1..] == [SPACE] + value;
    SpaceSkipped(value);
    TrimmedIsOneLine(value);
  }

  lemma {:induction false} TrimmedIsOneLine(t: Text)
    requires OneLine(t)
    ensures OneLine(TrimStart(t))
  {
    if t != [] && IsWhite(t[0]) {
      TrimmedIsOneLine(t[1..]);
    }
  }

  /** Where a key that has no lines yet goes: before the first `edges:`, else at the end. */
  function NewKeyPoint(entries: seq<Entry>, n: nat): nat {
    match FirstEdgesKey(entries)
    case Some(s) => s
    case None => n
  }

  /** The edit of the source: the key's own lines out, its new line in their place. */
  ghost predicate KeyEdit(lines: seq<Text>, entries: seq<Entry>, key: Text, value: Option<Text>, edited: seq<Text>) {
    var own := OwnEntries(entries, key);
    && Within(own, |lines|)
    && var left := Spliced(lines, own);
       match value
       case None => edited == left
       case Some(v) =>
         var p := if own != [] then own[0].start else NewKeyPoint(entries, |lines|);
         p <= |left| && edited == Inserted(left, p, KeyText(key, v))
  }

  /** What the editor promises of the lines it leaves. */
  ghost predicate OnlyKeyChanged(was: Lex, now: Lex, key: Text, value: Option<Text>) {
    && now.faults == [] && PropsIn(now.edges) == PropsIn(was.edges)
    && (forall q | q != key :: Lookup<Value>(now.fields, q) == Lookup<Value>(was.fields, q))
    && match value
       case None => Lookup<Value>(now.fields, key) == None
       case Some(v) =>
         var h := ViewOf(KeyText(key, v));
         IsHeader(h) && Lookup<Value>(now.fields, key) == Some(ValueOf(h))
  }

  /** Where the new line of a key without lines goes, among the marks: before a header or at the end. */
  lemma PointIsFree(vs: seq<View>, entries: seq<Entry>)
    requires EntriesPlaced(vs, entries, |vs|)
    ensures var p := NewKeyPoint(entries, |vs|); p <= |vs| && FromHeader(vs[p..])
  {
    hide EntriesPlaced, FirstEdgesKey;
    if FirstEdgesKey(entries).Some? {
      FirstIsAnEntry(entries);
      var e :| e in entries && e.kind == EdgesEntry && e.start == FirstEdgesKey(entries).value;
      var m :| 0 <= m < |entries| && entries[m] == e;
      EntryKey(vs, entries, m);
      assert vs[e.start..][0] == vs[e.start];
    }
  }

  lemma OwnAreRanges(reader: Reader, lines: seq<Text>, key: Text)
    requires Local(reader) && Lexed(reader, lines).faults == []
    ensures Ranges(reader, lines, OwnEntries(Lexed(reader, lines).entries, key), OwnOf(Marks(reader, lines), key))
  {
    hide EntriesAlike, Marks, Lexed, Local, Before;
    var vs, entries := Marks(reader, lines), Lexed(reader, lines).entries;
    var own := OwnEntries(entries, key);
    LexedAlike(reader, lines);
    OwnAlike(reader, lines, entries, Before(vs, |vs|).entries, key);
    OwnAreWithin(vs, key);
    assert forall j | 0 <= j < |own| :: own[j] in own;
  }

  /** Where the key's new line goes, among the lines and among the marks. */
  lemma KeyPoint(reader: Reader, lines: seq<Text>, key: Text, own: seq<Entry>, marked: seq<Entry>) returns (q: nat)
    requires Local(reader) && Lexed(reader, lines).faults == []
    requires own == OwnEntries(Lexed(reader, lines).entries, key) && marked == OwnOf(Marks(reader, lines), key)
    requires Ranges(reader, lines, own, marked) && |own| == |marked|
    ensures var p := if own != [] then own[0].start else NewKeyPoint(Lexed(reader, lines).entries, |lines|);
            Stands(reader, lines, p, q)
    ensures own != [] ==> q == marked[0].start
    ensures own == [] ==> q <= |Marks(reader, lines)| && FromHeader(Marks(reader, lines)[q..])
  {
    hide Lexed, Marks, Local, EntriesPlaced, OwnEntries, Before, EntriesAlike, Stands, FirstEdgesKey, Ranges, FromHeader;
    if own != [] {
      FirstStands(reader, lines, own, marked);
      q := marked[0].start;
    } else {
      var vs := Marks(reader, lines);
      var x := Before(vs, |vs|);
      LexedAlike(reader, lines);
      EntriesStand(vs, |vs|);
      FirstAlike(reader, lines, Lexed(reader, lines).entries, x.entries);
      PointIsFree(vs, x.entries);
      q := NewKeyPoint(x.entries, |vs|);
    }
  }

  lemma NothingSpliced<T>(s: seq<T>)
    ensures Spliced(s, []) == s
  {
  }

  /** Where the source puts the key's new line. */
  function SetPoint(entries: seq<Entry>, key: Text, n: nat): nat {
    var own := OwnEntries(entries, key);
    if own != [] then own[0].start else NewKeyPoint(entries, n)
  }

  lemma SetPointWithin(reader: Reader, lines: seq<Text>, key: Text) returns (q: nat)
    requires Local(reader) && Lexed(reader, lines).faults == []
    ensures var entries := Lexed(reader, lines).entries;
            var own, p := OwnEntries(entries, key), SetPoint(entries, key, |lines|);
            && Within(own, |lines|) && p <= |lines| && p <= |Spliced(lines, own)|
            && Spliced(lines, own)[..p] == lines[..p] && Stands(reader, lines, p, q)
            && (own != [] ==> OwnOf(Marks(reader, lines), key) != [] && q == OwnOf(Marks(reader, lines), key)[0].start)
            && (own == [] ==> q <= |Marks(reader, lines)| && FromHeader(Marks(reader, lines)[q..]))
  {
    hide *;
    var own, marked := OwnEntries(Lexed(reader, lines).entries, key), OwnOf(Marks(reader, lines), key);
    OwnAreRanges(reader, lines, key);
    RangesInOrder(reader, lines, own, marked);
    q := KeyPoint(reader, lines, key, own, marked);
    var p := SetPoint(Lexed(reader, lines).entries, key, |lines|);
    PointIs(Lexed(reader, lines).entries, key, |lines|);
    StandsWithin(reader, lines, p, q);
    if own == [] {
      NothingSpliced(lines);
    } else {
      SplicedFront(lines, own);
    }
  }

  lemma PointIs(entries: seq<Entry>, key: Text, n: nat)
    ensures var own := OwnEntries(entries, key);
            SetPoint(entries, key, n) == if own != [] then own[0].start else NewKeyPoint(entries, n)
  {
  }

  lemma NewLineIsHeader(key: Text, value: Option<Text>)
    requires IsKey(key) && (value.Some? ==> OneLine(value.value))
    ensures LineFor(key, LineOf(key, value))
  {
    hide ViewOf, IsKey, OneLine;
    if value.Some? {
      KeyLineIsHeader(key, value.value);
      LineIsSeen(KeyText(key, value.value));
    }
  }

  /** The marks of the edited lines are the edited marks. */
  lemma EditedMarks(reader: Reader, lines: seq<Text>, key: Text, value: Option<Text>, edited: seq<Text>)
    requires Local(reader) && Lexed(reader, lines).faults == [] && key != EDGES && LineFor(key, LineOf(key, value))
    requires KeyEdit(lines, Lexed(reader, lines).entries, key, value, edited)
    ensures MarksEdited(Marks(reader, lines), key, LineOf(key, value), Marks(reader, edited))
  {
    hide Lexed, Marks, Local, OwnEntries, ViewOf, KeyText, Stands, Ranges, Spliced, Edited, NewKeyPoint, FromHeader, HeaderOf, Seen,
         OwnOf;
    var vs, entries := Marks(reader, lines), Lexed(reader, lines).entries;
    var own, marked := OwnEntries(entries, key), OwnOf(vs, key);
    OwnAreRanges(reader, lines, key);
    RangesInOrder(reader, lines, own, marked);
    SplicedMarks(reader, lines, own, marked);
    var left := Spliced(lines, own);
    if value.Some? {
      var q := SetPointWithin(reader, lines, key);
      var p, line := SetPoint(entries, key, |lines|), KeyText(key, value.value);
      StandsBefore(reader, lines, left, p, q);
      LineIsHeader(key, LineOf(key, value));
      OwnIsHeader(ViewOf(line), key);
      HeaderKey(ViewOf(line), key);
      MarksInsert(reader, left, p, q, line);
    }
    if own != [] {
      SplicedThenSet(vs, marked, LineOf(key, value));
      var rest := Spliced(vs, marked);
      assert rest[..marked[0].start] + [] + rest[marked[0].start..] == rest;
    } else {
      NothingSpliced(vs);
    }
  }

  lemma HeaderKey(v: View, k: Text)
    requires HeaderOf(v, k)
    ensures v.key == k
  {
  }

  /** The editor's promise, on what the lines come to. */
  lemma PromiseIsRight(was: Lex, now: Lex, before: Core, after: Core, key: Text, value: Option<Text>)
    requires was.faults == [] && CoreOf(was) == before && CoreOf(now) == after && LineFor(key, LineOf(key, value))
    ensures OnlyKeyChanged(was, now, key, value) <==> Right(key, LineOf(key, value), before, after)
  {
    hide Lookup, ViewOf, ValueOf, KeyText;
  }

  /** In a block without faults, whatever values its `edges:` headers carry, an edit of one key changes that field and
      nothing else whenever every cut is harmless and the new line keeps its value; and only then, unless the key stands
      more than once with a flow edge among its lines. */
  lemma {:induction false} KeyEditExactly(reader: Reader, lines: seq<Text>, key: Text, value: Option<Text>, edited: seq<Text>)
    requires Local(reader) && Lexed(reader, lines).faults == []
    requires IsKey(key) && key != EDGES && (value.Some? ==> OneLine(value.value))
    requires KeyEdit(lines, Lexed(reader, lines).entries, key, value, edited)
    ensures value.Some? ==> IsHeader(ViewOf(KeyText(key, value.value)))
    ensures KeyFits(Marks(reader, lines), key, value) ==> OnlyKeyChanged(Lexed(reader, lines), Lexed(reader, edited), key, value)
    ensures Plain(Marks(reader, lines), key) ==>
              OnlyKeyChanged(Lexed(reader, lines), Lexed(reader, edited), key, value) ==> KeyFits(Marks(reader, lines), key, value)
  {
    hide *;
    NewLineIsHeader(key, value);
    LineHead(key, value);
    EditedMarks(reader, lines, key, value, edited);
    LexedIsMarksOutcome(reader, lines);
    LexedIsMarksOutcome(reader, edited);
    var vs, now := Marks(reader, lines), Marks(reader, edited);
    NotFaulty(Lexed(reader, lines));
    MarksAreSeen(reader, lines);
    MarksEditExactly(vs, key, value, now);
    PromiseIsRight(Lexed(reader, lines), Lexed(reader, edited), Outcome(vs), Outcome(now), key, value);
  }

  lemma LineHead(key: Text, value: Option<Text>)
    requires LineFor(key, LineOf(key, value))
    ensures value.Some? ==> IsHeader(ViewOf(KeyText(key, value.value)))
  {
    hide ViewOf;
  }

  lemma NotFaulty(x: Lex)
    requires x.faults == []
    ensures !CoreOf(x).faulty
  {
  }

  // ---------- a tidy key ----------

  /** A blank or comment line that no mode makes anything of. */
  predicate Inert(v: View) {
    v.Other? && v.blank && v.open.None? && v.cont.None? && v.item.None? && v.folded.None?
  }

  /** Nothing but inert lines up to the next header, or the end. */
  predicate Tail(vs: seq<View>)
    decreases |vs|
  {
    vs == [] || IsHeader(vs[0]) || (Inert(vs[0]) && Tail(vs[1..]))
  }

  /** The key's entries hold no flow edge, and no loose line but inert ones stands behind one. */
  ghost predicate TidyKey(vs: seq<View>, own: seq<Entry>) {
    forall j | 0 <= j < |own| && own[j].start < own[j].end <= |vs| ::
      NoFlow(vs[own[j].start + 1..own[j].end]) && Tail(vs[own[j].end..])
  }

  /** Cutting out a range further on leaves inert lines up to a header. */
  lemma {:induction false} TailCut(vs: seq<View>, i: nat, start: nat, end: nat)
    requires i <= start < end <= |vs| && IsHeader(vs[start]) && Tail(vs[i..]) && Tail(vs[end..])
    ensures Tail(Cut(vs, start, end)[i..])
    decreases start - i
  {
    hide Inert;
    var cut := Cut(vs, start, end);
    if i == start {
      assert cut[i..] == vs[end..];
    } else {
      assert vs[i..][0] == vs[i] && vs[i..][1..] == vs[i + 1..];
      assert cut[i..][0] == vs[i] && cut[i..][1..] == cut[i + 1..];
      if !IsHeader(vs[i]) {
        TailCut(vs, i + 1, start, end);
      }
    }
  }

  lemma {:induction false} TailIsInert(vs: seq<View>, i: nat)
    requires i <= |vs| && Tail(vs[i..])
    ensures forall j | i <= j < NextHeader(vs, i) :: Inert(vs[j])
    decreases |vs| - i
  {
    hide Inert;
    if i < |vs| && !IsHeader(vs[i]) {
      assert vs[i..][0] == vs[i] && vs[i..][1..] == vs[i + 1..];
      TailIsInert(vs, i + 1);
    }
  }

  lemma {:induction false} InertIsQuiet(open: Option<Props>, t: seq<View>)
    requires forall i | 0 <= i < |t| :: Inert(t[i])
    ensures Quiet(open, open, t)
  {
    if t != [] {
      InertIsQuiet(open, t[1..]);
    }
  }

  lemma InertIsHarmless(vs: seq<View>, k: Text, e: Entry, line: View)
    requires e.start < e.end <= |vs| && NoFlow(vs[e.start + 1..e.end]) && Tail(vs[e.end..]) && IsHeader(line)
    ensures CutFits(vs, k, e) && SetFits(vs, line, e)
  {
    hide At, HeaderMode, NoHeaderOf;
    TailIsInert(vs, e.end);
    var t := LooseBehind(vs, e);
    assert forall i | 0 <= i < |t| :: t[i] == vs[e.end + i];
    var m := At(vs, e.start).mode;
    if m.UnderEdges? {
      InertIsQuiet(m.open, t);
    }
  }

  /** Among tidy lines every edit of the key fits. */
  lemma {:induction false} TidyKeyFits(vs: seq<View>, k: Text, own: seq<Entry>, line: Option<View>)
    requires OwnRanges(vs, k, own) && own != [] && TidyKey(vs, own) && (line.Some? ==> IsHeader(line.value))
    ensures AllFit(vs, k, own, line)
    decreases |own|
  {
    hide CutFits, SetFits, NoFlow, Tail, IsHeader;
    RangesLeft(vs, k, own);
    var n := |own| - 1;
    var e, init := own[n], own[..n];
    assert OwnRange(vs, k, own[n]);
    WithinFront(own, |vs|);
    OwnIsHeader(vs[e.start], k);
    InertIsHarmless(vs, k, e, if line.Some? then line.value else vs[e.start]);
    if |own| > 1 {
      var cut := Cut(vs, e.start, e.end);
      EarlierRanges(own, n);
      forall j | 0 <= j < n && init[j].start < init[j].end <= |cut|
        ensures NoFlow(cut[init[j].start + 1..init[j].end]) && Tail(cut[init[j].end..])
      {
        assert own[j].end <= e.start;
        CutSlice(vs, e.start, e.end, own[j].start + 1, own[j].end);
        TailCut(vs, own[j].end, e.start, e.end);
      }
      TidyKeyFits(cut, k, init, line);
    }
  }

  // ---------- the editor ----------

  /** Set one flat key, or with no value remove it. */
  method WithKey(reader: Reader, lines: seq<Text>, key: Text, value: Option<Text>) returns (edited: seq<Text>)
    requires Local(reader) && Lexed(reader, lines).faults == []
    requires IsKey(key) && key != EDGES && (value.Some? ==> OneLine(value.value))
    ensures value.Some? ==> IsHeader(ViewOf(KeyText(key, value.value)))
    ensures KeyFits(Marks(reader, lines), key, value) ==> OnlyKeyChanged(Lexed(reader, lines), Lexed(reader, edited), key, value)
    ensures Plain(Marks(reader, lines), key) ==>
              OnlyKeyChanged(Lexed(reader, lines), Lexed(reader, edited), key, value) ==> KeyFits(Marks(reader, lines), key, value)
  {
    hide Lexed, Local, OnlyKeyChanged, IsKey, OneLine, KeyText, OwnEntries, FirstEdgesKey, Marks, Spliced, NewKeyPoint,
         Ranges, Stands, KeyFits, Plain, ViewOf, OwnOf;
    var lex := LexFrontmatter(reader, lines);
    var own := OwnEntries(lex.entries, key);
    ghost var q := SetPointWithin(reader, lines, key);
    edited := SpliceRanges(lines, own);
    if value.Some? {
      var at := NewKeyPoint(lex.entries, |lines|);
      if own != [] {
        at := own[0].start;
      }
      edited := edited[..at] + [KeyText(key, value.value)] + edited[at..];
    }
    KeyEditExactly(reader, lines, key, value, edited);
  }

  /** Remove the ranges, the last one first, so that the earlier ones stay where they are. */
  method SpliceRanges(lines: seq<Text>, ranges: seq<Entry>) returns (out: seq<Text>)
    requires Within(ranges, |lines|)
    ensures out == Spliced(lines, ranges)
  {
    out := lines;
    var n := |ranges|;
    assert ranges[..n] == ranges;
    while n > 0
      invariant 0 <= n <= |ranges|
      invariant Within(ranges[..n], |out|)
      invariant Spliced(out, ranges[..n]) == Spliced(lines, ranges)
    {
      var r := ranges[n - 1];
      WithinFront(ranges[..n], |out|);
      assert ranges[..n][..n - 1] == ranges[..n - 1];
      n := n - 1;
      out := out[..r.start] + out[r.end..];
    }
    assert ranges[..0] == [];
  }

  // ---------- a loose line that folds ----------

  /** An indented line after an inline list belongs to nothing, until the list is cut and it folds onto
      the scalar before. */
  lemma StrayViewFolds(k: Text, list: Text, t: Text)
    requires k != list && k != EDGES && !IsListField(k) && t != [] && !IsWhite(t[0]) && !IsWhite(t[|t| - 1])
    requires !IsQuote(t[0]) && !IsQuote(t[|t| - 1])
    ensures var head, own := KeyLine(k, t), ListLine(list, []);
            var stray := Other(None, None, None, Some(t), false);
            && Lookup<Value>(Outcome([head, own, stray]).fields, k) == Some(Scalar(t))
            && Lookup<Value>(Outcome([head, stray]).fields, k) == Some(Scalar(t + [SPACE] + t))
  {
    hide IsListField, IsQuote;
    var head, own := KeyLine(k, t), ListLine(list, []);
    var stray := Other(None, None, None, Some(t), false);
    TrimFixes(t);
    assert !WhollyQuoted(t, DQ) && !WhollyQuoted(t, SQ) by { PlainEnds(t); }
    assert ScalarValue(t) == t;
    assert !QuoteOpen(t) by { PlainEnds(t); }
    var c := CoreStep(START, head);
    assert c == Core([(k, Scalar(t))], [], false, Folds(k, t));
    OneStep(START, head);
    OneStep(c, stray);
    OneStep(c, own);
    OneStep(CoreStep(c, own), stray);
    RunConcat(START, [head], [stray]);
    RunConcat(START, [head], [own] + [stray]);
    RunConcat(c, [own], [stray]);
    assert [head] + [stray] == [head, stray] && [head] + ([own] + [stray]) == [head, own, stray];
    LookupPut(c.fields, list, List([]), k);
    LookupPut(c.fields, k, Scalar(t + [SPACE] + t), k);
  }

  lemma PlainEnds(t: Text)
    requires t != [] && !IsQuote(t[0]) && !IsQuote(t[|t| - 1])
    ensures t[0] != DQ && t[0] != SQ && t[|t| - 1] != DQ && t[|t| - 1] != SQ
  {
  }

  const X: Text := [0x78]

  /** `id: x`, `pin: []`, and an indented `x`. */
  function StrayLines(): (lines: seq<Text>)
    ensures |lines| == 3
  {
    [KeyText(ID, X), InlineText(PIN, []), [SPACE] + X]
  }

  lemma IdIsNoList()
    ensures !IsListField(ID) && IsListField(PIN) && IsKey(ID) && IsKey(PIN)
  {
    assert SameText(PIN, LIST_FIELDS[0]);
  }

  lemma StrayViews()
    ensures ViewOf(KeyText(ID, X)) == KeyLine(ID, X)
    ensures ViewOf(InlineText(PIN, [])) == ListLine(PIN, [])
    ensures ViewOf([SPACE] + X) == Other(None, None, None, Some(X), false)
  {
    hide IsListField, InlineText;
    IdIsNoList();
    KeyTextReads(ID, X);
    InlineReads(PIN, []);
    StrayView();
  }

  lemma StrayView()
    ensures ViewOf([SPACE] + X) == Other(None, None, None, Some(X), false)
  {
    hide IsListField, FlowAttrs;
    var s := [SPACE] + X;
    assert s[1..] == X && X[1..] == [];
    IndentedIsNoKey(s);
    assert TrimStart(s) == X;
    assert FlowEdge(s) == None;
    assert Trim(s) == X;
  }

  lemma StrayIsBare(reader: Reader)
    ensures AllBare(reader, StrayLines()) && AllBare(reader, [StrayLines()[0], StrayLines()[2]])
    ensures Views(StrayLines()) == [KeyLine(ID, X), ListLine(PIN, []), Other(None, None, None, Some(X), false)]
    ensures Views([StrayLines()[0], StrayLines()[2]]) == [KeyLine(ID, X), Other(None, None, None, Some(X), false)]
  {
    hide ViewOf, KeyText, InlineText;
    StrayViews();
  }

  /** The lexer's entries of those lines. */
  lemma StrayEntries(vs: seq<View>)
    requires vs == [KeyLine(ID, X), ListLine(PIN, []), Other(None, None, None, Some(X), false)]
    ensures Before(vs, 3).entries == [Entry(ScalarEntry, ID, 0, 1, false), Entry(ListEntry, PIN, 1, 2, false)]
  {
    hide IsListField, ScalarValue, QuoteOpen, Put;
    IdIsNoList();
    var x := Step(EMPTY, 0, vs[0]);
    assert Before(vs, 1) == x && x.entries == [Entry(ScalarEntry, ID, 0, 1, false)];
    assert Before(vs, 2) == Step(x, 1, vs[1]);
  }

  lemma OwnPin(entries: seq<Entry>)
    requires entries == [Entry(ScalarEntry, ID, 0, 1, false), Entry(ListEntry, PIN, 1, 2, false)]
    ensures OwnEntries(entries, PIN) == [Entry(ListEntry, PIN, 1, 2, false)]
  {
    assert entries[..1] == [Entry(ScalarEntry, ID, 0, 1, false)] && entries[..1][..0] == [];
    assert OwnEntries(entries[..1], PIN) == [];
  }

  /** Cutting `pin` out of those three lines changes `id`: `x` has become `x x`. */
  lemma StrayLineFolds(reader: Reader)
    ensures var lines, edited := StrayLines(), [StrayLines()[0], StrayLines()[2]];
            && Lexed(reader, lines).faults == []
            && KeyEdit(lines, Lexed(reader, lines).entries, PIN, None, edited)
            && Lookup<Value>(Lexed(reader, lines).fields, ID) == Some(Scalar(X))
            && Lookup<Value>(Lexed(reader, edited).fields, ID) == Some(Scalar(X + [SPACE] + X))
            && !OnlyKeyChanged(Lexed(reader, lines), Lexed(reader, edited), PIN, None)
  {
    hide Lexed, StrayLines, Views, Before, Outcome, AllBare, OwnEntries, Lookup, ViewOf, IsListField;
    var lines, edited := StrayLines(), [StrayLines()[0], StrayLines()[2]];
    StrayIsBare(reader);
    StrayEntries(Views(lines));
    LexEnds(reader, lines);
    FlushedEntries(Before(Views(lines), 3), 3);
    OwnPin(Lexed(reader, lines).entries);
    var own := OwnEntries(Lexed(reader, lines).entries, PIN);
    assert lines[..1] + lines[2..] == edited;
    assert own[..0] == [];
    NothingSpliced(edited);
    assert Spliced(lines, own) == edited;
    IdIsNoList();
    StrayViewFolds(ID, PIN, X);
    LexedIsOutcome(reader, lines);
    LexedIsOutcome(reader, edited);
    NoStrayFault();
  }

  lemma NoStrayFault()
    ensures !Outcome([KeyLine(ID, X), ListLine(PIN, []), Other(None, None, None, Some(X), false)]).faulty
  {
    hide IsListField, ScalarValue, QuoteOpen, Put;
    IdIsNoList();
    var head, own, stray := KeyLine(ID, X), ListLine(PIN, []), Other(None, None, None, Some(X), false);
    OneStep(START, head);
    OneStep(CoreStep(START, head), own);
    OneStep(CoreStep(CoreStep(START, head), own), stray);
    RunConcat(START, [head], [own, stray]);
    RunConcat(CoreStep(START, head), [own], [stray]);
    assert [head, own, stray] == [head] + [own, stray] && [own, stray] == [own] + [stray];
  }
}
