/** Text as JavaScript holds it, UTF-16 code units, with its UTF-8 size and its lines. */
module ContentText {
  import opened Common

  /** A UTF-16 code unit, by number; nothing here needs its upper bound. */
  type Unit = int
  type Text = seq<Unit>

  const NL: Unit := 10
  const CR: Unit := 13

  /** A string literal of characters in the basic plane, as code units. */
  function Units(s: string): (t: Text)
    requires forall i | 0 <= i < |s| :: s[i] as int < 0x80
    ensures |t| == |s| && forall i | 0 <= i < |s| :: t[i] == s[i] as int
  {
    if s == [] then [] else [s[0] as int] + Units(s[1..])
  }

  // ---------- characters and their UTF-8 size (RFC 3629 section 3) ----------

  predicate High(u: Unit) { 0xD800 <= u < 0xDC00 }

  predicate Low(u: Unit) { 0xDC00 <= u < 0xE000 }

  predicate PairAt(t: Text, i: int) {
    0 <= i && i + 1 < |t| && High(t[i]) && Low(t[i + 1])
  }

  /** The code units of the character at the front: a surrogate pair counts as one. */
  function FirstLength(t: Text): (n: nat)
    requires t != []
    ensures 1 <= n <= 2 && n <= |t|
  {
    if PairAt(t, 0) then 2 else 1
  }

  /** Its UTF-8 bytes; a lone surrogate is written as the three-byte replacement. */
  function FirstBytes(t: Text): (n: nat)
    requires t != []
    ensures 1 <= n <= 4
  {
    if PairAt(t, 0) then 4 else if t[0] < 0x80 then 1 else if t[0] < 0x800 then 2 else 3
  }

  function ByteLength(t: Text): nat {
    if t == [] then 0 else FirstBytes(t) + ByteLength(t[FirstLength(t)..])
  }

  /** Position `k` is not inside a character. */
  predicate Boundary(t: Text, k: nat)
    requires k <= |t|
  {
    !PairAt(t, k - 1)
  }

  lemma {:induction false} ByteLengthSplit(t: Text, k: nat)
    requires k <= |t| && Boundary(t, k)
    ensures ByteLength(t) == ByteLength(t[..k]) + ByteLength(t[k..])
    decreases |t|
  {
    if k == 0 {
      assert t[..0] == [] && t[0..] == t;
    } else if k == |t| {
      assert t[..k] == t && t[k..] == [];
    } else {
      var n := FirstLength(t);
      assert n <= k;
      var rest := t[n..];
      assert rest[..k - n] == t[..k][n..];
      assert rest[k - n..] == t[k..];
      if k > n {
        assert PairAt(rest, k - n - 1) <==> PairAt(t, k - 1);
      }
      ByteLengthSplit(rest, k - n);
      assert FirstLength(t[..k]) == n && FirstBytes(t[..k]) == FirstBytes(t);
    }
  }

  /** Sizes add up across a joint that cannot make a pair. */
  lemma {:induction false} ByteLengthConcat(a: Text, b: Text)
    requires a == [] || b == [] || !High(a[|a| - 1]) || !Low(b[0])
    ensures ByteLength(a + b) == ByteLength(a) + ByteLength(b)
  {
    var t := a + b;
    assert Boundary(t, |a|);
    assert t[..|a|] == a && t[|a|..] == b;
    ByteLengthSplit(t, |a|);
  }

  lemma {:induction false} AsciiBytes(t: Text)
    requires forall u | u in t :: u < 0x80
    ensures ByteLength(t) == |t|
  {
    if t != [] {
      assert t[0] in t;
      assert !PairAt(t, 0);
      assert forall u | u in t[1..] :: u in t;
      AsciiBytes(t[1..]);
    }
  }

  // ---------- lines ----------

  /** The last newline at or before which nothing later is one: `lastIndexOf("\n")`. */
  function LastNewline(t: Text): (k: int)
    ensures -1 <= k < |t|
    ensures k >= 0 ==> t[k] == NL
    ensures forall i | k < i < |t| :: t[i] != NL
  {
    if t == [] then -1 else if t[|t| - 1] == NL then |t| - 1 else LastNewline(t[..|t| - 1])
  }

  /** `lastIndexOf("\n\n")`. */
  function LastBlank(t: Text): (k: int)
    ensures k == -1 || 0 <= k < |t| - 1
    ensures k >= 0 ==> t[k] == NL && t[k + 1] == NL
    ensures forall i | k < i && 0 <= i && i + 1 < |t| :: !(t[i] == NL && t[i + 1] == NL)
  {
    if |t| < 2 then -1
    else if t[|t| - 2] == NL && t[|t| - 1] == NL then |t| - 2
    else LastBlank(t[..|t| - 1])
  }

  /** `indexOf("\n")`. */
  function FirstNewline(t: Text): (k: int)
    ensures -1 <= k < |t|
    ensures k >= 0 ==> t[k] == NL && forall i | 0 <= i < k :: t[i] != NL
    ensures k < 0 ==> NL !in t
  {
    if t == [] then -1
    else if t[0] == NL then 0
    else
      var k := FirstNewline(t[1..]);
      if k < 0 then -1 else k + 1
  }

  /** `split("\n")[0]`. */
  function FirstLine(t: Text): Text {
    if FirstNewline(t) < 0 then t else t[..FirstNewline(t)]
  }

  /** The last element of `split("\n")`. */
  function LastLine(t: Text): Text {
    t[LastNewline(t) + 1..]
  }

  lemma LastLineAfter(a: Text, b: Text)
    ensures LastNewline(a + [NL] + b) == if LastNewline(b) < 0 then |a| else |a| + 1 + LastNewline(b)
    ensures LastLine(a + [NL] + b) == LastLine(b)
  {
    var t := a + [NL] + b;
    var k := if LastNewline(b) < 0 then |a| else |a| + 1 + LastNewline(b);
    assert t[|a|] == NL;
    assert forall i | |a| < i < |t| :: t[i] == b[i - |a| - 1];
    assert t[k] == NL && forall i | k < i < |t| :: t[i] != NL;
    assert LastNewline(t) == k;
  }

  lemma FirstLineBefore(a: Text, b: Text)
    requires NL !in a
    ensures FirstNewline(a + [NL] + b) == |a|
    ensures FirstLine(a + [NL] + b) == a
  {
    var t := a + [NL] + b;
    assert t[|a|] == NL;
    assert forall i | 0 <= i < |a| :: t[i] == a[i] && a[i] in a;
    assert FirstNewline(t) == |a|;
    assert t[..|a|] == a;
  }

  // ---------- line endings ----------

  /** Reading: `replace(/\r\n/g, "\n")`. */
  function ToLf(t: Text): (r: Text)
    ensures |r| <= |t|
  {
    if t == [] then []
    else if |t| >= 2 && t[0] == CR && t[1] == NL then [NL] + ToLf(t[2..])
    else [t[0]] + ToLf(t[1..])
  }

  /** Writing under a CRLF header: `replace(/\n/g, "\r\n")`. */
  function ToCrLf(t: Text): Text {
    if t == [] then [] else (if t[0] == NL then [CR, NL] else [t[0]]) + ToCrLf(t[1..])
  }

  predicate HasCrLf(t: Text) {
    exists i :: 0 <= i < |t| - 1 && t[i] == CR && t[i + 1] == NL
  }

  lemma {:induction false} CrLfRoundTrip(t: Text)
    ensures ToLf(ToCrLf(t)) == t
    ensures t != [] && ToCrLf(t) != [] ==> ToCrLf(t)[0] != NL
  {
    if t != [] {
      CrLfRoundTrip(t[1..]);
      var w := ToCrLf(t);
      if t[0] == NL {
        assert w[2..] == ToCrLf(t[1..]);
      } else {
        assert w[1..] == ToCrLf(t[1..]);
        assert |w| >= 2 ==> w[1] != NL;
      }
      assert t == [t[0]] + t[1..];
    }
  }

  /** Reading changes a text exactly when it holds a CR LF pair, and then shortens it. */
  lemma {:induction false} ToLfFixes(t: Text)
    ensures !HasCrLf(t) ==> ToLf(t) == t
    ensures HasCrLf(t) ==> |ToLf(t)| < |t|
  {
    if t != [] {
      if |t| >= 2 && t[0] == CR && t[1] == NL {
        assert HasCrLf(t);
      } else {
        ToLfFixes(t[1..]);
        assert t == [t[0]] + t[1..];
        if HasCrLf(t) {
          var i :| 0 <= i < |t| - 1 && t[i] == CR && t[i + 1] == NL;
          assert t[1..][i - 1] == CR && t[1..][i] == NL;
        }
        if HasCrLf(t[1..]) {
          var i :| 0 <= i < |t[1..]| - 1 && t[1..][i] == CR && t[1..][i + 1] == NL;
          assert t[i + 1] == CR && t[i + 2] == NL;
        }
      }
    }
  }

  lemma ToLfStep(c: Unit, t: Text)
    requires c != CR || t == [] || t[0] != NL
    ensures ToLf([c] + t) == [c] + ToLf(t)
  {
    assert ([c] + t)[1..] == t;
  }

  lemma ToLfPair(t: Text)
    ensures ToLf([CR, NL] + t) == [NL] + ToLf(t)
  {
    assert ([CR, NL] + t)[2..] == t;
  }

  lemma Regroup(a: Text, b: Text, c: Text)
    ensures (a + b) + c == a + (b + c)
  {
  }

  lemma ToLfStepConcat(c: Unit, rest: Text, b: Text)
    requires ToLf(rest + b) == ToLf(rest) + ToLf(b)
    requires c != CR || ((rest == [] || rest[0] != NL) && (rest + b == [] || (rest + b)[0] != NL))
    ensures ToLf(([c] + rest) + b) == ToLf([c] + rest) + ToLf(b)
  {
    ToLfStep(c, rest);
    ToLfStep(c, rest + b);
    Regroup([c], rest, b);
    Regroup([c], ToLf(rest), ToLf(b));
  }

  lemma ToLfPairConcat(rest: Text, b: Text)
    requires ToLf(rest + b) == ToLf(rest) + ToLf(b)
    ensures ToLf(([CR, NL] + rest) + b) == ToLf([CR, NL] + rest) + ToLf(b)
  {
    ToLfPair(rest);
    ToLfPair(rest + b);
    Regroup([CR, NL], rest, b);
    Regroup([NL], ToLf(rest), ToLf(b));
  }

  /** Reading distributes over a joint that makes no CR LF pair. */
  lemma {:induction false} ToLfConcat(a: Text, b: Text)
    requires a == [] || b == [] || a[|a| - 1] != CR || b[0] != NL
    ensures ToLf(a + b) == ToLf(a) + ToLf(b)
    decreases |a|
  {
    if a == [] {
      assert a + b == b;
    } else if |a| >= 2 && a[0] == CR && a[1] == NL {
      ToLfConcat(a[2..], b);
      ToLfPairConcat(a[2..], b);
      assert a == [CR, NL] + a[2..];
    } else {
      ToLfConcat(a[1..], b);
      ToLfStepConcat(a[0], a[1..], b);
      assert a == [a[0]] + a[1..];
    }
  }
}
