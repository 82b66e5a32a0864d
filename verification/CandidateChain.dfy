/** The chain of candidates a run record carries beside its tip (`lib/kernel/candidate.js`). */
module CandidateChain {
  import opened Common

  /** `facts` stands for everything about a candidate that no fold here looks at. */
  datatype Candidate = Candidate(id: string, commit: string, supersedes: Option<string>, commitsSeen: seq<string>,
                                 facts: string)

  datatype Change = Unchanged | Created | Superseded | SeenAgain

  /** The re-pin fold: the same tree only learns another commit, a new tree supersedes the old. */
  function RepinCandidate(prior: Option<Candidate>, next: Option<Candidate>): (Option<Candidate>, Change) {
    if next.None? then (prior, Unchanged)
    else if prior.None? then (next, Created)
    else
      var p, n := prior.value, next.value;
      if p.id != n.id then (Some(n.(supersedes := Some(p.id))), Superseded)
      else if n.commit == "" || n.commit == p.commit || n.commit in p.commitsSeen then (prior, Unchanged)
      else (Some(p.(commitsSeen := p.commitsSeen + [n.commit])), SeenAgain)
  }

  /** The chain after a pin: the last entry is replaced when the id is its own, extended otherwise. */
  function AppendCandidateChain(chain: seq<Candidate>, candidate: Option<Candidate>): seq<Candidate> {
    if candidate.None? || candidate.value.id == "" then chain
    else if chain != [] && chain[|chain| - 1].id == candidate.value.id then
      chain[..|chain| - 1] + [candidate.value]
    else chain + [candidate.value]
  }

  datatype Pins = Pins(tip: Option<Candidate>, chain: seq<Candidate>)

  /** A run record's answer to one submission. */
  function Pin(p: Pins, next: Candidate): Pins {
    var tip := RepinCandidate(p.tip, Some(next)).0;
    Pins(tip, AppendCandidateChain(p.chain, tip))
  }

  function Run(p: Pins, submissions: seq<Candidate>): Pins {
    if submissions == [] then p else Pin(Run(p, submissions[..|submissions| - 1]), submissions[|submissions| - 1])
  }

  /** The tip is the last entry, and each later entry is a different tree that supersedes the one before. */
  predicate ChainLaw(p: Pins) {
    && (p.tip.None? <==> p.chain == [])
    && (p.tip.Some? ==> p.chain[|p.chain| - 1] == p.tip.value)
    && (forall i | 0 <= i < |p.chain| :: p.chain[i].id != "")
    && (forall i | 0 <= i < |p.chain| - 1 ::
          p.chain[i].id != p.chain[i + 1].id && p.chain[i + 1].supersedes == Some(p.chain[i].id))
  }

  /** Entries before the tip stay exactly as they are; the tip's own entry keeps its id, its commit
      and what it supersedes. */
  predicate Extends(before: seq<Candidate>, after: seq<Candidate>) {
    before == [] || (
      var k := |before| - 1;
      && |after| >= |before| && after[..k] == before[..k]
      && after[k].id == before[k].id && after[k].commit == before[k].commit
      && after[k].supersedes == before[k].supersedes && after[k].facts == before[k].facts)
  }

  lemma PinKeepsChainLaw(p: Pins, next: Candidate)
    requires ChainLaw(p) && next.id != ""
    ensures ChainLaw(Pin(p, next)) && Extends(p.chain, Pin(p, next).chain)
    ensures Pin(p, next).tip.value.id == next.id
  {
    var q := Pin(p, next);
    if p.tip.Some? && p.tip.value.id == next.id {
      assert q.chain[..|p.chain| - 1] == p.chain[..|p.chain| - 1];
    } else if p.tip.Some? {
      assert q.chain == p.chain + [q.tip.value];
      assert q.chain[..|p.chain| - 1] == p.chain[..|p.chain| - 1];
    }
  }

  lemma ExtendsChains(a: seq<Candidate>, b: seq<Candidate>, c: seq<Candidate>)
    requires Extends(a, b) && Extends(b, c)
    ensures Extends(a, c)
  {
    if a != [] {
      var k := |a| - 1;
      if |b| == |a| {
        assert c[..k] == b[..k];
      } else {
        assert c[..|b| - 1] == b[..|b| - 1];
        assert c[..k] == c[..|b| - 1][..k] == b[..|b| - 1][..k] == b[..k];
        assert c[k] == c[..|b| - 1][k] == b[k];
      }
    }
  }

  /** Over any run of submissions the tip stays last, the last submission's tree is the tip's, and no
      ancestor is rewritten. */
  lemma {:induction false} TipIsAlwaysLast(p: Pins, submissions: seq<Candidate>)
    requires ChainLaw(p) && forall c | c in submissions :: c.id != ""
    ensures ChainLaw(Run(p, submissions)) && Extends(p.chain, Run(p, submissions).chain)
    ensures submissions != [] ==> Run(p, submissions).tip.value.id == submissions[|submissions| - 1].id
  {
    hide ChainLaw, Extends, Pin;
    if submissions == [] {
      ExtendsItself(p.chain);
    } else {
      var front, last := submissions[..|submissions| - 1], submissions[|submissions| - 1];
      assert last in submissions;
      TipIsAlwaysLast(p, front);
      var before := Run(p, front);
      PinKeepsChainLaw(before, last);
      ExtendsChains(p.chain, before.chain, Pin(before, last).chain);
    }
  }

  lemma ExtendsItself(chain: seq<Candidate>)
    ensures Extends(chain, chain)
  {
  }

  /** A tree that comes back after another is a new entry, so an id may appear twice. */
  lemma ReturningTreeAppearsTwice(a: Candidate, b: Candidate)
    requires a.id != "" && b.id != "" && a.id != b.id
    ensures var chain := Run(Pins(None, []), [a, b, a]).chain;
            |chain| == 3 && chain[0] == a && chain[0].id == chain[2].id && chain[2].supersedes == Some(b.id)
  {
    var all := [a, b, a];
    assert all[..2] == [a, b] && [a, b][..1] == [a] && [a][..0] == [];
    var one := Pins(Some(a), [a]);
    assert Run(Pins(None, []), [a]) == one;
    var b' := b.(supersedes := Some(a.id));
    assert Run(Pins(None, []), [a, b]) == Pins(Some(b'), [a, b']);
  }
}
