/** The tf-idf inverted index: built at once, patched in place, and scored (`lib/kernel/ranker.js`).
    Arithmetic is over exact reals. */
module Ranker {
  import opened Common
  import opened RankerMath

  type Id = string

  /** A node and the tokens of its text. */
  datatype Node = Node(id: Id, tokens: seq<Term>)

  datatype Doc = Doc(id: Id, norm: real)

  datatype Posting = Posting(docs: seq<nat>, w: seq<real>)

  datatype Index = Index(docs: seq<Doc>, df: map<Term, nat>, n: nat, postings: map<Term, Posting>,
                         docIndex: map<Id, nat>)

  // ---------- term counts and weights ----------

  /** The distinct tokens, in order of first appearance. */
  function TermsOf(tokens: seq<Term>): (r: seq<Term>)
    ensures Distinct(r) && forall t :: t in r <==> t in tokens
  {
    if tokens == [] then []
    else
      var front := TermsOf(tokens[..|tokens| - 1]);
      if tokens[|tokens| - 1] in front then front else front + [tokens[|tokens| - 1]]
  }

  function Count(tokens: seq<Term>, t: Term): (c: nat)
    ensures c > 0 <==> t in tokens
  {
    if tokens == [] then 0
    else Count(tokens[..|tokens| - 1], t) + if tokens[|tokens| - 1] == t then 1 else 0
  }

  /** `log(N / df)`; a term the corpus never saw has df N. Only an empty corpus divides by
      zero, and there nothing is scored. */
  function Idf(m: Maths, df: map<Term, nat>, n: nat, t: Term): real {
    var d := if t in df then df[t] else n;
    if d == 0 then 0.0 else m.log(n as real / d as real)
  }

  function Weight(m: Maths, df: map<Term, nat>, n: nat, tokens: seq<Term>, t: Term): real {
    Times(Count(tokens, t) as real, Idf(m, df, n, t))
  }

  function Vec(m: Maths, df: map<Term, nat>, n: nat, tokens: seq<Term>): (v: Vector)
    ensures forall t :: t in v <==> t in tokens
  {
    map t | t in TermsOf(tokens) :: Weight(m, df, n, tokens, t)
  }

  ghost predicate AtMost(df: map<Term, nat>, n: nat) {
    forall t | t in df :: df[t] <= n
  }

  lemma {:induction false} VecIsNonnegative(m: Maths, df: map<Term, nat>, n: nat, tokens: seq<Term>)
    requires Lawful(m) && AtMost(df, n)
    ensures forall t | t in Vec(m, df, n, tokens) :: Vec(m, df, n, tokens)[t] >= 0.0
  {
    forall t | t in Vec(m, df, n, tokens)
      ensures Weight(m, df, n, tokens, t) >= 0.0
    {
      IdfIsNonnegative(m, df, n, t);
      ProductIsNonnegative(Count(tokens, t) as real, Idf(m, df, n, t));
    }
  }

  lemma IdfIsNonnegative(m: Maths, df: map<Term, nat>, n: nat, t: Term)
    requires Lawful(m) && AtMost(df, n)
    ensures Idf(m, df, n, t) >= 0.0
  {
    var d := if t in df then df[t] else n;
    if d > 0 {
      assert n as real / d as real >= 1.0;
    }
  }

  // ---------- document frequency ----------

  function TermSet(node: Node): set<Term> {
    set t | t in node.tokens
  }

  function SetsOf(nodes: seq<Node>): (r: seq<set<Term>>)
    ensures |r| == |nodes| && forall i | 0 <= i < |nodes| :: r[i] == TermSet(nodes[i])
  {
    seq(|nodes|, i requires 0 <= i < |nodes| => TermSet(nodes[i]))
  }

  /** How many of the documents hold `t`. */
  function DocsWith(sets: seq<set<Term>>, t: Term): (c: nat)
    ensures c <= |sets|
  {
    if sets == [] then 0 else DocsWith(sets[..|sets| - 1], t) + if t in sets[|sets| - 1] then 1 else 0
  }

  ghost predicate DfMatches(df: map<Term, nat>, sets: seq<set<Term>>) {
    forall t :: (t in df <==> DocsWith(sets, t) > 0) && (t in df ==> df[t] == DocsWith(sets, t))
  }

  lemma {:induction false} DocsWithChanges(sets: seq<set<Term>>, i: nat, s: set<Term>, t: Term)
    requires i < |sets|
    ensures DocsWith(sets[i := s], t)
         == DocsWith(sets, t) + (if t in s then 1 else 0) - (if t in sets[i] then 1 else 0)
  {
    var front := sets[..|sets| - 1];
    if i == |sets| - 1 {
      assert sets[i := s][..i] == front;
    } else {
      assert sets[i := s][..|sets| - 1] == front[i := s];
      DocsWithChanges(front, i, s, t);
    }
  }

  /** `df` after one more document takes `t`. */
  function Counted(df: map<Term, nat>, t: Term): map<Term, nat> {
    df[t := (if t in df then df[t] else 0) + 1]
  }

  /** `df` after one document drops `t`; a term nobody holds leaves the map. */
  function Uncounted(df: map<Term, nat>, t: Term): map<Term, nat> {
    if t !in df then df else if df[t] <= 1 then df - {t} else df[t := df[t] - 1]
  }

  lemma CountedMatches(df: map<Term, nat>, sets: seq<set<Term>>, i: nat, t: Term)
    requires DfMatches(df, sets) && i < |sets| && t !in sets[i]
    ensures DfMatches(Counted(df, t), sets[i := sets[i] + {t}])
  {
    forall u
      ensures DocsWith(sets[i := sets[i] + {t}], u) == DocsWith(sets, u) + if u == t then 1 else 0
    {
      DocsWithChanges(sets, i, sets[i] + {t}, u);
    }
  }

  lemma UncountedMatches(df: map<Term, nat>, sets: seq<set<Term>>, i: nat, t: Term)
    requires DfMatches(df, sets) && i < |sets| && t in sets[i]
    ensures t in df && df[t] > 0
    ensures DfMatches(Uncounted(df, t), sets[i := sets[i] - {t}])
  {
    DocsWithFinds(sets, i, t);
    forall u
      ensures DocsWith(sets[i := sets[i] - {t}], u) == DocsWith(sets, u) - if u == t then 1 else 0
    {
      DocsWithChanges(sets, i, sets[i] - {t}, u);
    }
  }

  lemma EmptySlotMatches(df: map<Term, nat>, sets: seq<set<Term>>)
    requires DfMatches(df, sets)
    ensures DfMatches(df, sets + [{}])
  {
    forall t
      ensures DocsWith(sets + [{}], t) == DocsWith(sets, t)
    {
      assert (sets + [{}])[..|sets|] == sets;
    }
  }

  lemma FrequencyIsBounded(df: map<Term, nat>, sets: seq<set<Term>>)
    requires DfMatches(df, sets)
    ensures AtMost(df, |sets|)
  {
  }

  lemma {:induction false} DocsWithFinds(sets: seq<set<Term>>, i: nat, t: Term)
    requires i < |sets| && t in sets[i]
    ensures DocsWith(sets, t) > 0
  {
    if i < |sets| - 1 {
      DocsWithFinds(sets[..|sets| - 1], i, t);
    }
  }

  // ---------- postings ----------

  ghost predicate PostingSound(p: Posting, t: Term, weights: seq<Vector>) {
    && |p.docs| == |p.w| && p.docs != [] && Distinct(p.docs)
    && forall k | 0 <= k < |p.docs| ::
         p.docs[k] < |weights| && t in weights[p.docs[k]] && p.w[k] == weights[p.docs[k]][t]
  }

  /** A posting list holds a document exactly when its vector holds the term, once, at its weight. */
  ghost predicate PostingsMatch(postings: map<Term, Posting>, weights: seq<Vector>) {
    && (forall t | t in postings :: PostingSound(postings[t], t, weights))
    && (forall i, t | 0 <= i < |weights| && t in weights[i] :: t in postings && i in postings[t].docs)
  }

  function Push(postings: map<Term, Posting>, t: Term, idx: nat, w: real): map<Term, Posting> {
    if t in postings then postings[t := Posting(postings[t].docs + [idx], postings[t].w + [w])]
    else postings[t := Posting([idx], [w])]
  }

  /** The entries of a list that are not for `idx`. */
  function Without(p: Posting, idx: nat, n: nat): Posting
    requires n <= |p.docs| && n <= |p.w|
  {
    if n == 0 then Posting([], [])
    else
      var r := Without(p, idx, n - 1);
      if p.docs[n - 1] == idx then r else Posting(r.docs + [p.docs[n - 1]], r.w + [p.w[n - 1]])
  }

  function Remove(postings: map<Term, Posting>, t: Term, idx: nat): map<Term, Posting>
    requires t in postings ==> |postings[t].docs| == |postings[t].w|
  {
    if t !in postings then postings
    else
      var r := Without(postings[t], idx, |postings[t].docs|);
      if r.docs == [] then postings - {t} else postings[t := r]
  }

  lemma {:induction false} WithoutKeepsOthers(p: Posting, idx: nat, n: nat)
    requires n <= |p.docs| == |p.w| && Distinct(p.docs)
    ensures var r := Without(p, idx, n);
            && |r.docs| == |r.w| && Distinct(r.docs) && idx !in r.docs
            && (forall d :: d in r.docs <==> d in p.docs[..n] && d != idx)
            && forall k | 0 <= k < |r.docs| :: exists j | 0 <= j < n :: r.docs[k] == p.docs[j] && r.w[k] == p.w[j]
  {
    if n > 0 {
      WithoutKeepsOthers(p, idx, n - 1);
      var before, r := Without(p, idx, n - 1), Without(p, idx, n);
      assert p.docs[..n] == p.docs[..n - 1] + [p.docs[n - 1]];
      assert p.docs[n - 1] !in p.docs[..n - 1];
      forall k | 0 <= k < |r.docs|
        ensures exists j | 0 <= j < n :: r.docs[k] == p.docs[j] && r.w[k] == p.w[j]
      {
        if k < |before.docs| {
          var j :| 0 <= j < n - 1 && before.docs[k] == p.docs[j] && before.w[k] == p.w[j];
          assert r.docs[k] == p.docs[j] && r.w[k] == p.w[j];
        } else {
          assert r.docs[k] == p.docs[n - 1] && r.w[k] == p.w[n - 1];
        }
      }
    }
  }

  lemma RemoveMatches(postings: map<Term, Posting>, weights: seq<Vector>, t: Term, idx: nat)
    requires PostingsMatch(postings, weights) && idx < |weights|
    ensures t in postings ==> |postings[t].docs| == |postings[t].w|
    ensures PostingsMatch(Remove(postings, t, idx), weights[idx := weights[idx] - {t}])
  {
    hide Without, Distinct;
    var weights' := weights[idx := weights[idx] - {t}];
    if t in postings {
      assert PostingSound(postings[t], t, weights);
      var p := postings[t];
      WithoutKeepsOthers(p, idx, |p.docs|);
      assert p.docs[..|p.docs|] == p.docs;
      var r := Without(p, idx, |p.docs|);
      var postings' := Remove(postings, t, idx);
      forall u | u in postings'
        ensures PostingSound(postings'[u], u, weights')
      {
        assert PostingSound(postings[u], u, weights);
        if u == t {
          assert postings'[u] == r;
          forall k | 0 <= k < |r.docs|
            ensures r.docs[k] < |weights'| && t in weights'[r.docs[k]] && r.w[k] == weights'[r.docs[k]][t]
          {
            var j :| 0 <= j < |p.docs| && r.docs[k] == p.docs[j] && r.w[k] == p.w[j];
            assert r.docs[k] in r.docs;
          }
        }
      }
      forall i, u | 0 <= i < |weights'| && u in weights'[i]
        ensures u in postings' && i in postings'[u].docs
      {
        assert u in weights[i];
        if u == t {
          assert i in r.docs;
        }
      }
    }
  }

  lemma PushMatches(postings: map<Term, Posting>, weights: seq<Vector>, t: Term, idx: nat, w: real)
    requires PostingsMatch(postings, weights) && idx < |weights| && t !in weights[idx]
    ensures PostingsMatch(Push(postings, t, idx, w), weights[idx := weights[idx][t := w]])
  {
    var weights' := weights[idx := weights[idx][t := w]];
    var postings' := Push(postings, t, idx, w);
    forall u | u in postings'
      ensures PostingSound(postings'[u], u, weights')
    {
      if u == t && t in postings {
        var p := postings[t];
        assert PostingSound(p, t, weights);
        assert idx !in p.docs;
      } else if u != t {
        assert PostingSound(postings[u], u, weights);
      }
    }
    forall i, u | 0 <= i < |weights'| && u in weights'[i]
      ensures u in postings' && i in postings'[u].docs
    {
      if u == t && i == idx {
        var d := postings'[t].docs;
        assert d[|d| - 1] == idx;
      } else {
        assert u in weights[i] && i in postings[u].docs;
        if u == t {
          assert i in postings[u].docs + [idx];
        }
      }
    }
  }

  /** A fresh, empty slot changes no posting. */
  lemma AppendSlotMatches(postings: map<Term, Posting>, weights: seq<Vector>)
    requires PostingsMatch(postings, weights)
    ensures PostingsMatch(postings, weights + [map[]])
  {
    forall t | t in postings
      ensures PostingSound(postings[t], t, weights + [map[]])
    {
      assert PostingSound(postings[t], t, weights);
    }
  }

  // ---------- the index of a corpus ----------

  /** The slot of the last node with this id. */
  ghost predicate LastSlot(nodes: seq<Node>, id: Id, i: nat) {
    i < |nodes| && nodes[i].id == id && forall j | i < j < |nodes| :: nodes[j].id != id
  }

  ghost predicate SlotsMatch(docIndex: map<Id, nat>, nodes: seq<Node>) {
    && (forall id | id in docIndex :: LastSlot(nodes, id, docIndex[id]))
    && (forall i | 0 <= i < |nodes| :: nodes[i].id in docIndex)
  }

  ghost predicate DocSound(m: Maths, doc: Doc, node: Node, weights: Vector) {
    && doc.id == node.id
    && (forall t :: t in weights <==> t in node.tokens)
    && (forall t | t in weights :: weights[t] >= 0.0)
    && doc.norm == m.sqrt(Square(TermsOf(node.tokens), weights))
  }

  /** The index says what the corpus holds; each stored norm is that of the posted weights. */
  ghost predicate Indexes(m: Maths, index: Index, nodes: seq<Node>, weights: seq<Vector>) {
    && index.n == |index.docs| == |nodes| == |weights|
    && DfMatches(index.df, SetsOf(nodes))
    && SlotsMatch(index.docIndex, nodes)
    && (forall i | 0 <= i < |nodes| :: DocSound(m, index.docs[i], nodes[i], weights[i]))
    && PostingsMatch(index.postings, weights)
  }

  /** Which documents a term's list names. */
  function Members(postings: map<Term, Posting>, t: Term): set<nat> {
    if t in postings then set d | d in postings[t].docs else {}
  }

  lemma MembersAreTheHolders(m: Maths, index: Index, nodes: seq<Node>, weights: seq<Vector>, t: Term)
    requires Indexes(m, index, nodes, weights)
    ensures t in index.postings <==> exists i :: 0 <= i < |nodes| && t in nodes[i].tokens
    ensures forall i :: i in Members(index.postings, t) <==> 0 <= i < |nodes| && t in nodes[i].tokens
  {
    hide DfMatches, SlotsMatch, Square;
    if t in index.postings {
      var p := index.postings[t];
      assert PostingSound(p, t, weights);
      forall d | d in p.docs
        ensures d < |nodes| && t in nodes[d].tokens
      {
        var k :| 0 <= k < |p.docs| && p.docs[k] == d;
        assert DocSound(m, index.docs[d], nodes[d], weights[d]);
      }
      assert p.docs[0] in p.docs;
    }
    forall i | 0 <= i < |nodes| && t in nodes[i].tokens
      ensures t in index.postings && i in index.postings[t].docs
    {
      assert DocSound(m, index.docs[i], nodes[i], weights[i]);
    }
  }

  /** However two indexes of the same corpus came about, they agree on everything but weights,
      norms and the order inside a list. */
  lemma SameCorpusSameIndex(m: Maths, a: Index, b: Index, nodes: seq<Node>, va: seq<Vector>, vb: seq<Vector>)
    requires Indexes(m, a, nodes, va) && Indexes(m, b, nodes, vb)
    ensures a.df == b.df && a.n == b.n && a.docIndex == b.docIndex
    ensures a.postings.Keys == b.postings.Keys
    ensures forall t :: Members(a.postings, t) == Members(b.postings, t)
    ensures forall i | 0 <= i < |nodes| :: a.docs[i].id == b.docs[i].id == nodes[i].id
  {
    hide Members, PostingsMatch, Square;
    forall t
      ensures Members(a.postings, t) == Members(b.postings, t)
      ensures t in a.postings <==> t in b.postings
    {
      MembersAreTheHolders(m, a, nodes, va, t);
      MembersAreTheHolders(m, b, nodes, vb, t);
    }
    forall i | 0 <= i < |nodes|
      ensures a.docs[i].id == b.docs[i].id == nodes[i].id
    {
      assert DocSound(m, a.docs[i], nodes[i], va[i]) && DocSound(m, b.docs[i], nodes[i], vb[i]);
    }
    SameDf(a.df, b.df, SetsOf(nodes));
    SameSlots(a.docIndex, b.docIndex, nodes);
  }

  lemma SameDf(a: map<Term, nat>, b: map<Term, nat>, sets: seq<set<Term>>)
    requires DfMatches(a, sets) && DfMatches(b, sets)
    ensures a == b
  {
    forall t
      ensures t in a <==> t in b
      ensures t in a ==> a[t] == b[t]
    {
      assert t in a <==> DocsWith(sets, t) > 0;
    }
  }

  lemma SameSlots(a: map<Id, nat>, b: map<Id, nat>, nodes: seq<Node>)
    requires SlotsMatch(a, nodes) && SlotsMatch(b, nodes)
    ensures a == b
  {
    forall id
      ensures id in a <==> id in b
      ensures id in a && id in b ==> a[id] == b[id]
    {
      if id in a {
        assert LastSlot(nodes, id, a[id]);
      }
      if id in b {
        assert LastSlot(nodes, id, b[id]);
      }
    }
  }
}
