/** The write guard on managed documents, and what it preserves. */
module ContentGuard {
  import opened Common
  import opened ContentText
  import opened ContentSpill
  import opened ContentChain

  datatype Answer = Admit(file: NodeFile) | Deny

  function TrimNewlines(t: Text): Text {
    if t != [] && t[|t| - 1] == NL then TrimNewlines(t[..|t| - 1]) else t
  }

  /** A stamp may be repeated or omitted, never asserted with another value. */
  predicate StampChanged(next: Option<Text>, prior: Option<Text>) {
    next.Some? && next.value != prior.GetOr([])
  }

  /** Omission is never erasure: an omitted stamp comes back from the stored file. */
  function Restored(next: NodeFile, prior: NodeFile): NodeFile {
    next.(digest := if next.digest.None? then prior.digest else next.digest,
          bytes := if next.bytes.None? then prior.bytes else next.bytes,
          generation := if next.generation.None? then prior.generation else next.generation)
  }

  /** The guard every ordinary write goes through. `prior` is the stored file, absent
      on create. A body that differs by trailing newlines alone gets its tail back. */
  function ManagedDocumentWriteGuard(prior: Option<NodeFile>, next: NodeFile): Answer {
    if prior.None? then
      if next.digest.Some? || next.bytes.Some? || next.generation.Some? then Deny else Admit(next)
    else
      var cur := prior.value;
      if StampChanged(next.digest, cur.digest) || StampChanged(next.bytes, cur.bytes)
         || StampChanged(next.generation, cur.generation) then Deny
      else
        var out := Restored(next, cur);
        if RoleOf(cur).Ordinary? then Admit(out)
        else
          var tailOnly := cur.Body() != out.Body() && TrimNewlines(cur.Body()) == TrimNewlines(out.Body());
          var kept := if tailOnly then out.(raw := cur.raw) else out;
          if kept.continuationOf.GetOr([]) != cur.continuationOf.GetOr([]) then Deny
          else if kept.Body() != cur.Body() then Deny
          else if RoleOf(cur).Part? && !(cur.links <= kept.links) then Deny
          else Admit(kept)
  }

  /** What an admitted write leaves of a managed file: everything a chain read looks at. */
  ghost predicate SameToReaders(before: NodeFile, after: NodeFile) {
    && after.Body() == before.Body()
    && after.digest.GetOr([]) == before.digest.GetOr([])
    && after.bytes.GetOr([]) == before.bytes.GetOr([])
    && after.generation.GetOr([]) == before.generation.GetOr([])
    && (before.digest.Some? ==> after.digest == before.digest)
    && (before.bytes.Some? ==> after.bytes == before.bytes)
    && (before.generation.Some? ==> after.generation == before.generation)
    && after.continuationOf.GetOr([]) == before.continuationOf.GetOr([])
  }

  lemma GuardKeepsManaged(cur: NodeFile, next: NodeFile)
    requires !RoleOf(cur).Ordinary? && ManagedDocumentWriteGuard(Some(cur), next).Admit?
    ensures SameToReaders(cur, ManagedDocumentWriteGuard(Some(cur), next).file)
    ensures RoleOf(cur).Part? ==> cur.links <= ManagedDocumentWriteGuard(Some(cur), next).file.links
  {
  }

  // ---------- runs of writes ----------

  datatype Write = Write(key: Text, file: NodeFile)

  /** One ordinary write through the guard; a denied one changes nothing. */
  function Apply(store: map<Text, NodeFile>, w: Write): map<Text, NodeFile> {
    var answer := ManagedDocumentWriteGuard(if w.key in store then Some(store[w.key]) else None, w.file);
    if answer.Admit? then store[w.key := answer.file] else store
  }

  function ApplyAll(store: map<Text, NodeFile>, writes: seq<Write>): map<Text, NodeFile> {
    if writes == [] then store else Apply(ApplyAll(store, writes[..|writes| - 1]), writes[|writes| - 1])
  }

  /** Writes do not move a node to another id. */
  ghost predicate KeepsIds(store: map<Text, NodeFile>, w: Write) {
    w.key in store ==> w.file.id == store[w.key].id
  }

  ghost predicate AllKeepIds(store: map<Text, NodeFile>, writes: seq<Write>) {
    forall i | 0 <= i < |writes| :: KeepsIds(ApplyAll(store, writes[..i]), writes[i])
  }

  /** Every managed file is still there and still the same to readers. */
  ghost predicate Preserved(before: map<Text, NodeFile>, after: map<Text, NodeFile>) {
    forall x | x in before && !RoleOf(before[x]).Ordinary? ::
      x in after && SameToReaders(before[x], after[x]) && after[x].id == before[x].id
  }

  lemma ApplyPreserves(store: map<Text, NodeFile>, w: Write)
    requires KeepsIds(store, w)
    ensures Preserved(store, Apply(store, w))
  {
    if w.key in store && !RoleOf(store[w.key]).Ordinary? && ManagedDocumentWriteGuard(Some(store[w.key]), w.file).Admit? {
      GuardKeepsManaged(store[w.key], w.file);
    }
  }

  lemma PreservedChains(a: map<Text, NodeFile>, b: map<Text, NodeFile>, c: map<Text, NodeFile>)
    requires Preserved(a, b) && Preserved(b, c)
    ensures Preserved(a, c)
  {
    forall x | x in a && !RoleOf(a[x]).Ordinary?
      ensures x in c && SameToReaders(a[x], c[x]) && c[x].id == a[x].id
    {
      assert SameToReaders(a[x], b[x]);
    }
  }

  lemma {:induction false} WritesPreserve(store: map<Text, NodeFile>, writes: seq<Write>)
    requires AllKeepIds(store, writes)
    ensures Preserved(store, ApplyAll(store, writes))
  {
    if writes != [] {
      var init := writes[..|writes| - 1];
      forall i | 0 <= i < |init|
        ensures KeepsIds(ApplyAll(store, init[..i]), init[i])
      {
        assert init[..i] == writes[..i];
      }
      WritesPreserve(store, init);
      assert KeepsIds(ApplyAll(store, init), writes[|writes| - 1]);
      ApplyPreserves(ApplyAll(store, init), writes[|writes| - 1]);
      PreservedChains(store, ApplyAll(store, init), ApplyAll(store, writes));
    }
  }

  // ---------- reading after the writes ----------

  /** The read that the writes must not disturb treats `after` as `before`. */
  ghost predicate ReadsAlike(before: NodeFile, after: NodeFile, pinned: bool) {
    && Managed(before) && before.digest.GetOr([]) != []
    && SameToReaders(before, after) && after.id == before.id
    && (pinned ==> Managed(after))
  }

  lemma FollowSurvives(root: NodeFile, store: map<Text, NodeFile>, root': NodeFile, store': map<Text, NodeFile>,
                       pinned: bool, ids: seq<Text>, next: Text)
    requires ReadsAlike(root, root', pinned) && Preserved(store, store')
    requires ids != [] && Follows(root, store, ids, next)
    ensures Follows(root', store', ids, next) && store'[next].Body() == store[next].Body()
  {
    assert RoleOf(store[next]).Part?;
    assert SameToReaders(store[next], store'[next]);
  }

  lemma {:induction false} WalkSurvives(root: NodeFile, store: map<Text, NodeFile>, root': NodeFile, store': map<Text, NodeFile>,
                                        pinned: bool, ids: seq<Text>, bodies: seq<Text>)
    requires ReadsAlike(root, root', pinned) && Preserved(store, store')
    requires |ids| == |bodies| > 0 && Walk(root, store, pinned, ids, bodies).Ended?
    ensures Walk(root', store', pinned, ids, bodies) == Walk(root, store, pinned, ids, bodies)
    decreases |store.Keys - Elements(ids)|
  {
    hide NextOf, Follows;
    var target := NextOf(bodies[|bodies| - 1]);
    if target.Some? {
      var next := target.value;
      FollowSurvives(root, store, root', store', pinned, ids, next);
      FollowsNew(root, store, ids, next);
      FewerLeft(store, ids, next);
      WalkSurvives(root, store, root', store', pinned, ids + [next], bodies + [store[next].Body()]);
    }
  }

  lemma CompleteIsEnded(hash: Text -> Text, root: NodeFile, store: map<Text, NodeFile>, pinned: bool)
    requires ReadChain(hash, root, store, pinned).complete
    ensures Walk(root, store, pinned, [IdOf(root)], [root.Body()]).Ended?
  {
  }

  lemma ConcludeAlike(hash: Text -> Text, root: NodeFile, root': NodeFile, end: WalkEnd)
    requires |end.ids| == |end.bodies| > 0 && end.Ended?
    requires SameToReaders(root, root') && Managed(root) && Conclude(hash, root, end).complete
    ensures Conclude(hash, root', end) == Conclude(hash, root, end)
  {
    CoreOfWrap(Concat(Slices(end.bodies)));
  }

  lemma {:induction false} ReadSurvives(hash: Text -> Text, root: NodeFile, store: map<Text, NodeFile>, root': NodeFile,
                     store': map<Text, NodeFile>, pinned: bool)
    requires ReadsAlike(root, root', pinned) && Preserved(store, store')
    requires ReadChain(hash, root, store, pinned).complete
    ensures ReadChain(hash, root', store', pinned) == ReadChain(hash, root, store, pinned)
  {
    CompleteIsEnded(hash, root, store, pinned);
    var end := Walk(root, store, pinned, [IdOf(root)], [root.Body()]);
    WalkSurvives(root, store, root', store', pinned, [IdOf(root)], [root.Body()]);
    ConcludeAlike(hash, root, root', end);
  }

  /** A read that follows no footer ends at the root, whatever role the root plays. */
  lemma OnePieceSurvives(hash: Text -> Text, root: NodeFile, store: map<Text, NodeFile>, root': NodeFile,
                         store': map<Text, NodeFile>, pinned: bool)
    requires Managed(root) && SameToReaders(root, root') && root'.id == root.id
    requires ReadChain(hash, root, store, pinned).complete && NextOf(root.Body()).None?
    ensures ReadChain(hash, root', store', pinned) == ReadChain(hash, root, store, pinned)
  {
    var end := Ended([IdOf(root)], [root.Body()]);
    assert Walk(root, store, pinned, [IdOf(root)], [root.Body()]) == end;
    assert Walk(root', store', pinned, [IdOf(root)], [root.Body()]) == end;
    ConcludeAlike(hash, root, root', end);
  }

  /** A pinned read of a root that is no longer managed withholds whatever its footer names. */
  lemma UnmanagedWithholds(hash: Text -> Text, root': NodeFile, store': map<Text, NodeFile>)
    requires !Managed(root') && NextOf(root'.Body()).Some?
    ensures ReadChain(hash, root', store', true).historyUnavailable && !ReadChain(hash, root', store', true).complete
  {
  }

  // ---------- the one way a read can be lost ----------

  /** The write asserts an empty generation stamp on `key`, and the guard admits it on the root stored there. */
  predicate SlipsStamp(root: NodeFile, key: Text, w: Write) {
    w.key == key && w.file.generation == Some([]) && ManagedDocumentWriteGuard(Some(root), w.file).Admit?
  }

  ghost predicate SomeWriteSlips(root: NodeFile, key: Text, writes: seq<Write>) {
    exists i :: 0 <= i < |writes| && SlipsStamp(root, key, writes[i])
  }

  /** What the guard answers on a root depends on nothing but what readers see of it. */
  lemma AdmissionIsReaders(root: NodeFile, now: NodeFile, next: NodeFile)
    requires Managed(root) && Managed(now) && SameToReaders(root, now)
    ensures ManagedDocumentWriteGuard(Some(now), next).Admit? <==> ManagedDocumentWriteGuard(Some(root), next).Admit?
  {
    hide TrimNewlines, ToLf;
  }

  /** One write stamps a still managed root exactly when it slips the stamp in. */
  lemma OneWriteStamps(root: NodeFile, store: map<Text, NodeFile>, key: Text, w: Write)
    requires Managed(root) && key in store && SameToReaders(root, store[key])
    ensures key in Apply(store, w)
    ensures Apply(store, w)[key].generation.Some? <==> store[key].generation.Some? || SlipsStamp(root, key, w)
  {
    hide TrimNewlines, ToLf;
    if w.key == key {
      if store[key].generation.None? {
        AdmissionIsReaders(root, store[key], w.file);
      } else if ManagedDocumentWriteGuard(Some(store[key]), w.file).Admit? {
        GuardKeepsManaged(store[key], w.file);
      }
    }
  }

  lemma {:induction false} StampAppears(store: map<Text, NodeFile>, key: Text, writes: seq<Write>)
    requires key in store && Managed(store[key]) && AllKeepIds(store, writes)
    ensures key in ApplyAll(store, writes) && SameToReaders(store[key], ApplyAll(store, writes)[key])
    ensures ApplyAll(store, writes)[key].generation.Some? <==> SomeWriteSlips(store[key], key, writes)
  {
    hide SameToReaders, Apply, SlipsStamp, ManagedDocumentWriteGuard;
    WritesPreserve(store, writes);
    if writes != [] {
      var init, last := writes[..|writes| - 1], writes[|writes| - 1];
      forall i | 0 <= i < |init|
        ensures KeepsIds(ApplyAll(store, init[..i]), init[i])
      {
        assert init[..i] == writes[..i];
      }
      StampAppears(store, key, init);
      OneWriteStamps(store[key], ApplyAll(store, init), key, last);
      assert SomeWriteSlips(store[key], key, writes) <==> SomeWriteSlips(store[key], key, init) || SlipsStamp(store[key], key, last) by {
        if SlipsStamp(store[key], key, last) {
          assert SlipsStamp(store[key], key, writes[|writes| - 1]);
        }
        if i :| 0 <= i < |init| && SlipsStamp(store[key], key, init[i]) {
          assert SlipsStamp(store[key], key, writes[i]);
        }
        if i :| 0 <= i < |writes| && SlipsStamp(store[key], key, writes[i]) {
          assert i < |init| ==> SlipsStamp(store[key], key, init[i]);
        }
      }
    }
  }

  /** Every published generation survives ordinary writes: whatever the guard
      admits, in any order, reading the root still gives the very same answer. For
      a pinned read of several pieces that holds exactly while no write that the stored
      root would admit asserts an empty generation stamp on it. */
  lemma {:induction false} GenerationSurvivesWrites(hash: Text -> Text, store: map<Text, NodeFile>, key: Text, writes: seq<Write>, pinned: bool)
    requires key in store && Managed(store[key]) && store[key].digest.GetOr([]) != []
    requires ReadChain(hash, store[key], store, pinned).complete
    requires AllKeepIds(store, writes)
    ensures key in ApplyAll(store, writes)
    ensures var after := ApplyAll(store, writes);
      (ReadChain(hash, after[key], after, pinned) == ReadChain(hash, store[key], store, pinned))
      <==> (!pinned || NextOf(store[key].Body()).None? || !SomeWriteSlips(store[key], key, writes))
  {
    var after := ApplyAll(store, writes);
    WritesPreserve(store, writes);
    StampAppears(store, key, writes);
    assert SameToReaders(store[key], after[key]);
    if !pinned || after[key].generation.None? {
      ReadSurvives(hash, store[key], store, after[key], after, pinned);
    } else if NextOf(store[key].Body()).None? {
      OnePieceSurvives(hash, store[key], store, after[key], after, pinned);
    } else {
      UnmanagedWithholds(hash, after[key], after);
    }
  }

  /** Why the pinned clause has a condition: the guard compares an asserted stamp
      with the stored one as text, so an empty generation stamp equals an absent one
      and is admitted on a root, which readers then take for a part; a pinned read of its pieces is then withheld. */
  lemma EmptyGenerationStampIsAdmitted(hash: Text -> Text, store: map<Text, NodeFile>, key: Text)
    requires key in store && Managed(store[key]) && NextOf(store[key].Body()).Some?
    ensures var w := Write(key, store[key].(generation := Some([])));
      var after := Apply(store, w);
      && SlipsStamp(store[key], key, w)
      && after == store[key := w.file] && RoleOf(after[key]).Part?
      && !ReadChain(hash, after[key], after, true).complete
  {
    var w := Write(key, store[key].(generation := Some([])));
    var after := Apply(store, w);
    assert after[key] == w.file;
    UnmanagedWithholds(hash, after[key], after);
  }
}
