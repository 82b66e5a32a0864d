/** Cutting a document into byte-bounded slices (`spillChunks`). */
module ContentSpill {
  import opened Common
  import opened ContentText

  /** The longest run of whole characters at the front that fits `cap` bytes. */
  function Fit(t: Text, cap: int): (n: nat)
    ensures n <= |t|
  {
    if t == [] || FirstBytes(t) > cap then 0
    else FirstLength(t) + Fit(t[FirstLength(t)..], cap - FirstBytes(t))
  }

  function SkipNewlines(t: Text, from: nat, limit: nat): (k: nat)
    requires from <= limit <= |t|
    ensures from <= k <= limit
    ensures forall i | from <= i < k :: t[i] == NL
    decreases limit - from
  {
    if from < limit && t[from] == NL then SkipNewlines(t, from + 1, limit) else from
  }

  /** Where the first slice ends: after the last blank line that fits, else after
      the last newline, else at the last character. */
  function Cut(t: Text, cap: nat): (k: nat)
    ensures k <= |t|
  {
    var fit := Fit(t, cap);
    var blank, line := LastBlank(t[..fit]), LastNewline(t[..fit]);
    SkipNewlines(t, if blank > 0 then blank + 2 else if line > 0 then line + 1 else fit, fit)
  }

  /** The first character and what follows it, inside a longer prefix. */
  lemma PrefixStep(t: Text, k: nat)
    requires t != [] && FirstLength(t) + k <= |t|
    ensures var n := FirstLength(t);
      && t[..n + k] != [] && FirstLength(t[..n + k]) == n && FirstBytes(t[..n + k]) == FirstBytes(t)
      && t[..n + k][n..] == t[n..][..k]
      && (k > 0 ==> Boundary(t[n..], k) ==> Boundary(t, n + k))
      && Boundary(t, n)
  {
  }

  lemma {:induction false} FitFits(t: Text, cap: nat)
    ensures Boundary(t, Fit(t, cap)) && ByteLength(t[..Fit(t, cap)]) <= cap
    ensures ByteLength(t) > cap ==> Fit(t, cap) < |t|
    ensures cap >= 4 && t != [] ==> Fit(t, cap) > 0
    decreases |t|
  {
    hide Boundary, FirstLength, FirstBytes;
    if t != [] && FirstBytes(t) <= cap {
      var n := FirstLength(t);
      FitFits(t[n..], cap - FirstBytes(t));
      PrefixStep(t, Fit(t[n..], cap - FirstBytes(t)));
    } else {
      assert t[..0] == [];
      NothingFits(t);
    }
  }

  lemma NothingFits(t: Text)
    ensures Boundary(t, 0) && ByteLength([]) == 0
  {
  }

  /** Where the cut lies against the fit: at it, or before it just after a newline. */
  lemma CutWithinFit(t: Text, cap: nat)
    ensures Cut(t, cap) <= Fit(t, cap)
    ensures Cut(t, cap) < Fit(t, cap) ==> Cut(t, cap) > 0 && t[Cut(t, cap) - 1] == NL
    ensures Fit(t, cap) > 0 ==> Cut(t, cap) > 0
  {
    hide Fit, LastBlank, LastNewline, SkipNewlines;
    var fit := Fit(t, cap);
    var window := t[..fit];
    assert LastBlank(window) >= 0 ==> window[LastBlank(window) + 1] == NL;
  }

  /** The cut makes progress, fits the cap, and splits no character. */
  lemma CutFits(t: Text, cap: nat)
    requires cap >= 4 && ByteLength(t) > cap
    ensures 0 < Cut(t, cap) < |t|
    ensures Boundary(t, Cut(t, cap)) && ByteLength(t[..Cut(t, cap)]) <= cap
  {
    hide Fit, Cut, ByteLength, Boundary;
    FitFits(t, cap);
    CutWithinFit(t, cap);
    if Cut(t, cap) < Fit(t, cap) {
      LineEndFits(t, Fit(t, cap), Cut(t, cap));
    }
  }

  lemma LineEndFits(t: Text, fit: nat, cut: nat)
    requires 0 < cut <= fit <= |t| && t[cut - 1] == NL
    ensures Boundary(t, cut) && ByteLength(t[..cut]) <= ByteLength(t[..fit])
  {
    SplitAtLineEnd(t[..fit], cut);
    assert t[..fit][..cut] == t[..cut];
  }

  lemma SplitAtLineEnd(t: Text, k: nat)
    requires 0 < k <= |t| && t[k - 1] == NL
    ensures ByteLength(t[..k]) <= ByteLength(t)
  {
    ByteLengthSplit(t, k);
  }

  function SpillChunks(t: Text, cap: nat): (chunks: seq<Text>)
    requires cap >= 4
    ensures |chunks| > 0
    decreases |t|
  {
    if ByteLength(t) <= cap then [t]
    else
      CutFits(t, cap);
      [t[..Cut(t, cap)]] + SpillChunks(t[Cut(t, cap)..], cap)
  }

  function Concat(chunks: seq<Text>): Text {
    if chunks == [] then [] else chunks[0] + Concat(chunks[1..])
  }

  /** The slices concatenate to the text. */
  lemma {:induction false} ChunksConcatenate(t: Text, cap: nat)
    requires cap >= 4
    ensures Concat(SpillChunks(t, cap)) == t
    decreases |t|
  {
    hide ByteLength, Cut, Boundary;
    if ByteLength(t) <= cap {
      assert Concat([t]) == t + Concat([]);
    } else {
      CutFits(t, cap);
      var k := Cut(t, cap);
      ChunksConcatenate(t[k..], cap);
      assert t == t[..k] + t[k..];
    }
  }

  /** Every slice fits the cap, and none is empty unless the text is. */
  lemma {:induction false} ChunksFit(t: Text, cap: nat)
    requires cap >= 4
    ensures forall c | c in SpillChunks(t, cap) :: ByteLength(c) <= cap && (t != [] ==> c != [])
    decreases |t|
  {
    hide ByteLength, Cut, Boundary;
    if ByteLength(t) > cap {
      CutFits(t, cap);
      var k := Cut(t, cap);
      ChunksFit(t[k..], cap);
      var chunks := SpillChunks(t, cap);
      assert chunks == [t[..k]] + SpillChunks(t[k..], cap);
    }
  }

  /** No slice ends inside a character: at every joint, the text on both sides
      has the size of its own characters. */
  lemma {:induction false} ChunksKeepCharacters(t: Text, cap: nat, i: nat)
    requires cap >= 4 && 0 < i < |SpillChunks(t, cap)|
    ensures var a, b := SpillChunks(t, cap)[i - 1], SpillChunks(t, cap)[i];
      a != [] && b != [] && !(High(a[|a| - 1]) && Low(b[0]))
    decreases |t|
  {
    hide ByteLength, Cut;
    CutFits(t, cap);
    var k := Cut(t, cap);
    var rest := t[k..];
    var chunks := SpillChunks(rest, cap);
    assert SpillChunks(t, cap) == [t[..k]] + chunks;
    ChunksFit(rest, cap);
    if i == 1 {
      assert chunks[0] in chunks;
      FirstChunkStarts(rest, cap);
      assert chunks[0][0] == t[k];
      assert t[..k][k - 1] == t[k - 1];
    } else {
      ChunksKeepCharacters(rest, cap, i - 1);
    }
  }

  lemma FirstChunkStarts(t: Text, cap: nat)
    requires cap >= 4 && t != []
    ensures SpillChunks(t, cap)[0] != [] && SpillChunks(t, cap)[0][0] == t[0]
  {
    hide ByteLength, Cut;
    if ByteLength(t) > cap {
      CutFits(t, cap);
    }
  }

  /** A slice that is not the last ends at a line end whenever a line end past its
      first character fits. */
  lemma CutPrefersLines(t: Text, cap: nat)
    requires cap >= 4 && ByteLength(t) > cap
    ensures LastNewline(t[..Fit(t, cap)]) > 0 ==> t[Cut(t, cap) - 1] == NL
    ensures LastBlank(t[..Fit(t, cap)]) > 0 ==> Cut(t, cap) >= 2 && t[Cut(t, cap) - 2] == NL
  {
  }

  /** The scan of the source over the characters of `rest` that still fit. */
  method ScanFit(rest: Text, cap: nat) returns (fit: nat)
    ensures fit == Fit(rest, cap)
  {
    fit := 0;
    var bytes := 0;
    while fit < |rest| && bytes + FirstBytes(rest[fit..]) <= cap
      invariant fit <= |rest| && 0 <= bytes <= cap
      invariant fit + Fit(rest[fit..], cap - bytes) == Fit(rest, cap)
      decreases |rest| - fit
    {
      var here := rest[fit..];
      assert here[FirstLength(here)..] == rest[fit + FirstLength(here)..];
      bytes := bytes + FirstBytes(here);
      fit := fit + FirstLength(here);
    }
  }

  method FindCut(rest: Text, cap: nat) returns (cut: nat)
    ensures cut == Cut(rest, cap)
  {
    hide Fit, LastBlank, LastNewline;
    var fit := ScanFit(rest, cap);
    var window := rest[..fit];
    var blank, line := LastBlank(window), LastNewline(window);
    cut := if blank > 0 then blank + 2 else if line > 0 then line + 1 else fit;
    while cut < fit && rest[cut] == NL
      invariant cut <= fit
      invariant SkipNewlines(rest, cut, fit) == Cut(rest, cap)
      decreases fit - cut
    {
      cut := cut + 1;
    }
  }

  /** The loop of the source, proved against the function above. */
  method Spill(text: Text, cap: nat) returns (chunks: seq<Text>)
    requires cap >= 4
    ensures chunks == SpillChunks(text, cap)
  {
    hide ByteLength, Cut, Boundary;
    chunks := [];
    var rest := text;
    while ByteLength(rest) > cap
      invariant chunks + SpillChunks(rest, cap) == SpillChunks(text, cap)
      decreases |rest|
    {
      CutFits(rest, cap);
      var cut := FindCut(rest, cap);
      ghost var left := SpillChunks(rest[cut..], cap);
      assert SpillChunks(rest, cap) == [rest[..cut]] + left;
      assert chunks + ([rest[..cut]] + left) == (chunks + [rest[..cut]]) + left;
      chunks := chunks + [rest[..cut]];
      rest := rest[cut..];
    }
    chunks := chunks + [rest];
  }
}
