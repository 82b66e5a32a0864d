/** When the archive reader comes to a halt (`lib/tar.js`). */
module TarHalting {
  import opened Common
  import opened TarFormat
  import opened TarArchive

  /** The offset after `n` turns, were the reader never to halt. */
  function Place(buf: Bytes, off: int, n: nat): int
    decreases n
  {
    if n == 0 then off else Place(buf, NextOff(buf, off), n - 1)
  }

  lemma {:induction false} PlaceAfter(buf: Bytes, off: int, m: nat, n: nat)
    ensures Place(buf, off, m + n) == Place(buf, Place(buf, off, m), n)
    decreases m
  {
    hide NextOff;
    if m > 0 {
      PlaceAfter(buf, NextOff(buf, off), m - 1, n);
    }
  }

  /** To stop within `n` turns is to stand where the reader halts after at most `n` of them. */
  lemma {:induction false} StopsSomewhere(buf: Bytes, off: int, n: nat) returns (i: nat)
    requires Stops(buf, off, n)
    ensures i <= n && Halted(buf, Place(buf, off, i))
    decreases n
  {
    hide Halted, NextOff;
    if Halted(buf, off) {
      i := 0;
    } else {
      i := StopsSomewhere(buf, NextOff(buf, off), n - 1);
      i := i + 1;
    }
  }

  lemma {:induction false} StopsThere(buf: Bytes, off: int, n: nat, i: nat)
    requires i <= n && Halted(buf, Place(buf, off, i))
    ensures Stops(buf, off, n)
    decreases n
  {
    hide Halted, NextOff;
    if i > 0 {
      StopsThere(buf, NextOff(buf, off), n - 1, i - 1);
    }
  }

  // ---------- where the reader can be ----------

  /** The blocks, before and behind the start, at which a reader that goes on may stand. */
  function Blocks(buf: Bytes): nat {
    |buf| / 512
  }

  lemma StepsByBlocks(buf: Bytes, off: int)
    requires off % 512 == 0
    ensures NextOff(buf, off) % 512 == 0
  {
    hide SizeOf, HeaderAt;
  }

  lemma {:induction false} PlacesAreBlocks(buf: Bytes, off: int, n: nat)
    requires off % 512 == 0
    ensures Place(buf, off, n) % 512 == 0
    decreases n
  {
    hide NextOff;
    if n > 0 {
      StepsByBlocks(buf, off);
      PlacesAreBlocks(buf, NextOff(buf, off), n - 1);
    }
  }

  /** Too far behind the start the header is empty, and the reader halts. */
  lemma FarBehindHalts(buf: Bytes, off: int)
    requires off + 512 <= -|buf|
    ensures Halted(buf, off)
  {
    assert HeaderAt(buf, off) == [];
  }

  lemma GoingOnIsNear(buf: Bytes, off: int)
    requires !Halted(buf, off) && off % 512 == 0
    ensures -(Blocks(buf) as int) - 1 <= off / 512 < Blocks(buf)
  {
    hide AllZero, HeaderAt;
    if off + 512 <= -|buf| {
      FarBehindHalts(buf, off);
    }
  }

  /** The `n` numbers from `lo` up. */
  function Span(lo: int, n: nat): (r: set<int>)
    ensures |r| == n
    ensures forall b :: b in r <==> lo <= b < lo + n
  {
    if n == 0 then {} else Span(lo, n - 1) + {lo + n - 1}
  }

  /** The blocks such a reader may stand at. */
  function Range(buf: Bytes): (r: set<int>)
    ensures |r| == 2 * Blocks(buf) + 1
    ensures forall b :: b in r <==> -(Blocks(buf) as int) - 1 <= b < Blocks(buf)
  {
    Span(-(Blocks(buf) as int) - 1, 2 * Blocks(buf) + 1)
  }

  /** A sequence longer than the set it draws from repeats itself. */
  lemma {:induction false} Repeats(s: seq<int>, from: set<int>) returns (i: nat, j: nat)
    requires |s| > |from| && forall k | 0 <= k < |s| :: s[k] in from
    ensures i < j < |s| && s[i] == s[j]
    decreases |s|
  {
    var last := s[|s| - 1];
    if k :| 0 <= k < |s| - 1 && s[k] == last {
      i, j := k, |s| - 1;
    } else {
      var front := s[..|s| - 1];
      forall k | 0 <= k < |front|
        ensures front[k] in from - {last}
      {
      }
      i, j := Repeats(front, from - {last});
    }
  }

  // ---------- exactly when it halts ----------

  /** The reader comes back to a place it has been at. */
  ghost predicate Returns(buf: Bytes, i: nat, j: nat) {
    i < j && !Stops(buf, 0, j) && Place(buf, 0, i) == Place(buf, 0, j)
  }

  /** Coming back once it never stops: the offset alone decides the next one. */
  lemma {:induction false} ReturningNeverHalts(buf: Bytes, i: nat, j: nat, n: nat)
    requires Returns(buf, i, j)
    ensures !Halted(buf, Place(buf, 0, n))
    decreases n
  {
    hide Halted, Stops, NextOff, Place;
    if n <= j {
      if Halted(buf, Place(buf, 0, n)) {
        StopsThere(buf, 0, j, n);
      }
    } else {
      PlaceAfter(buf, 0, j, n - j);
      PlaceAfter(buf, 0, i, n - j);
      ReturningNeverHalts(buf, i, j, i + (n - j));
    }
  }

  /** Going on for more turns than there are blocks to stand at, it must come back. */
  lemma LongReadingReturns(buf: Bytes) returns (i: nat, j: nat)
    requires !Stops(buf, 0, 2 * Blocks(buf) + 1)
    ensures Returns(buf, i, j)
  {
    hide Halted, Stops, NextOff, Place, Span, Range, Blocks;
    var n := 2 * Blocks(buf) + 1;
    var blocks := seq(n + 1, k requires 0 <= k < n + 1 => Place(buf, 0, k) / 512);
    forall k | 0 <= k < n + 1
      ensures blocks[k] in Range(buf) && Place(buf, 0, k) == 512 * blocks[k]
    {
      PlacesAreBlocks(buf, 0, k);
      if Halted(buf, Place(buf, 0, k)) {
        StopsThere(buf, 0, n, k);
      }
      GoingOnIsNear(buf, Place(buf, 0, k));
    }
    i, j := Repeats(blocks, Range(buf));
    if Stops(buf, 0, j) {
      var k := StopsSomewhere(buf, 0, j);
      StopsThere(buf, 0, n, k);
    }
  }

  /** The reader halts at all if and only if it halts within two turns a block and one more, and if and only
      if it never comes back to a place it has been at. */
  lemma HaltsExactlyWhen(buf: Bytes)
    ensures (exists n: nat :: Stops(buf, 0, n)) <==> Stops(buf, 0, 2 * Blocks(buf) + 1)
    ensures (exists n: nat :: Stops(buf, 0, n)) <==> !exists i: nat, j: nat :: Returns(buf, i, j)
  {
    hide Stops, Halted, Place, NextOff;
    if !Stops(buf, 0, 2 * Blocks(buf) + 1) {
      var i, j := LongReadingReturns(buf);
      ReturningIsForEver(buf, i, j);
    }
    forall i: nat, j: nat | Returns(buf, i, j)
      ensures forall n: nat :: !Stops(buf, 0, n)
    {
      ReturningIsForEver(buf, i, j);
    }
  }

  lemma ReturningIsForEver(buf: Bytes, i: nat, j: nat)
    requires Returns(buf, i, j)
    ensures forall n: nat :: !Stops(buf, 0, n)
  {
    hide Stops, Halted, Place, NextOff, Returns;
    forall n: nat
      ensures !Stops(buf, 0, n)
    {
      if Stops(buf, 0, n) {
        var k := StopsSomewhere(buf, 0, n);
        ReturningNeverHalts(buf, i, j, k);
      }
    }
  }

  // ---------- reading forward ----------

  /** None of the first `n` headers the reader comes to sends it back or keeps it in place. */
  predicate Forward(buf: Bytes, off: int, n: nat)
    decreases n
  {
    n == 0 || Halted(buf, off) || (NextOff(buf, off) > off && Forward(buf, NextOff(buf, off), n - 1))
  }

  /** Reading forward takes at most a turn a block. */
  lemma {:induction false} ForwardReadingHalts(buf: Bytes, off: nat, n: nat)
    requires off % 512 == 0 && Forward(buf, off, n) && off + 512 * n + 512 > |buf|
    ensures Stops(buf, off, n)
    decreases n
  {
    hide NextOff, AllZero, HeaderAt;
    if !Halted(buf, off) {
      StepsByBlocks(buf, off);
      ForwardReadingHalts(buf, NextOff(buf, off), n - 1);
    }
  }

  lemma {:induction false} ForwardFromHalt(buf: Bytes, off: int, n: nat)
    requires Halted(buf, off)
    ensures Forward(buf, off, n)
  {
  }

  lemma {:induction false} ForwardFurther(buf: Bytes, off: int, n: nat, m: nat)
    requires m <= n && Forward(buf, off, n)
    ensures Forward(buf, off, m)
    decreases m
  {
    hide NextOff, Halted;
    if m > 0 && !Halted(buf, off) {
      ForwardFurther(buf, NextOff(buf, off), n - 1, m - 1);
    }
  }

  lemma {:induction false} EntryGoesForward(hash: Bytes -> Bytes, buf: Bytes, off: nat, e: Entry, n: nat)
    requires Fits(e)
    requires off + |EntryBytes(hash, e)| <= |buf| && buf[off..off + |EntryBytes(hash, e)|] == EntryBytes(hash, e)
    requires Forward(buf, off + |EntryBytes(hash, e)|, n)
    ensures Forward(buf, off, n)
  {
    hide RawHeader, PaxRecord, SplitName, PaxHeaderOf, StubHeader, Halted, NextOff, NextPax, Yields, Pad, Chunk, EntryBytes,
         Rejoin, CutNul, Clip, Fits, Forward;
    SplitSaysName(e.name);
    EntryIsLong(hash, e);
    if SplitName(e.name).Some? {
      var h := PlainHeader(SplitName(e.name).value, |e.data|, e.mtime);
      ShortEntryIsAChunk(hash, e);
      RegularTurn(buf, off, h, e.data, None);
      OneForward(buf, off, n);
    } else {
      var record := PaxRecord(PATH, e.name);
      var x, stub := PaxHeaderOf(hash, e.name, e.mtime), StubHeader(hash, e.name, |e.data|, e.mtime);
      var first, second := Chunk(x, record), Chunk(stub, e.data);
      LongHeaders(hash, e);
      LongEntryIsTwoChunks(hash, e);
      ChunkParts(x, record);
      ChunkParts(stub, e.data);
      PartsInPlace(buf, off, first, second);
      PaxTurn(buf, off, x, e.name);
      RegularTurn(buf, off + |first|, stub, e.data, Some(e.name));
      OneForward(buf, off + |first|, n);
      OneForward(buf, off, n);
    }
  }

  lemma EntryIsLong(hash: Bytes -> Bytes, e: Entry)
    ensures |EntryBytes(hash, e)| >= 512
  {
    hide SplitName, Chunk, PaxRecord, Pad, PlainHeader, StubHeader, PaxHeaderOf;
  }

  /** A turn forward, and forward from there on. */
  lemma OneForward(buf: Bytes, off: int, n: nat)
    requires !Halted(buf, off) && NextOff(buf, off) > off && Forward(buf, NextOff(buf, off), n)
    ensures Forward(buf, off, n)
  {
    hide NextOff, Halted;
    if n > 0 {
      ForwardFurther(buf, NextOff(buf, off), n, n - 1);
    }
  }

  lemma ShortEntryIsAChunk(hash: Bytes -> Bytes, e: Entry)
    requires Fits(e) && SplitName(e.name).Some?
    ensures var h := PlainHeader(SplitName(e.name).value, |e.data|, e.mtime);
            EntryBytes(hash, e) == Chunk(h, e.data) && Writable(h) && h.flag == REGULAR && h.size == |e.data|
  {
    hide RawHeader, SplitName, PaxRecord;
  }

  /** The headers of a written archive all send the reader forward, whatever its entries hold. */
  lemma {:induction false} ArchiveGoesForward(hash: Bytes -> Bytes, es: seq<Entry>, buf: Bytes, off: nat, n: nat)
    requires forall e | e in es :: Fits(e)
    requires off <= |buf| && buf[off..] == Archive(hash, es)
    ensures Forward(buf, off, n)
    decreases |es|
  {
    hide EntryBytes, Fits, Forward, Halted;
    if es == [] {
      ZeroBlockStops(buf, off);
      ForwardFromHalt(buf, off, n);
    } else {
      var e, rest := es[0], es[1..];
      var bytes := EntryBytes(hash, e);
      assert Fits(e);
      assert buf[off..] == bytes + Archive(hash, rest);
      assert buf[off..off + |bytes|] == buf[off..][..|bytes|] == bytes;
      var next := off + |bytes|;
      assert buf[next..] == buf[off..][|bytes|..] == Archive(hash, rest);
      ArchiveGoesForward(hash, rest, buf, next, n);
      EntryGoesForward(hash, buf, off, e, n);
    }
  }

  lemma ZeroBlockStops(buf: Bytes, off: nat)
    requires off <= |buf| && buf[off..] == Fill(NUL, 1024)
    ensures Halted(buf, off)
  {
    ZeroBlockHalts(buf, off);
  }

  // ---------- a block that never ends ----------

  /** One block whose size field reads `-1000`, octal for -512. */
  function BackwardBlock(): (r: Bytes)
    ensures |r| == 512
  {
    seq(512, k requires 0 <= k < 512 => if 124 <= k < 129 then [0x2D, 0x31, 0x30, 0x30, 0x30][k - 124] else NUL)
  }

  lemma BackwardDigits()
    ensures ParseInt([0x2D, 0x31, 0x30, 0x30, 0x30], 8) == Some(-512)
  {
    var field: Bytes := [0x2D, 0x31, 0x30, 0x30, 0x30];
    var digits: Bytes := [0x31, 0x30, 0x30, 0x30];
    assert field[1..] == digits;
    assert digits[1..] == [0x30, 0x30, 0x30];
    assert digits[1..][1..] == [0x30, 0x30];
    assert digits[1..][1..][1..] == [0x30];
    assert digits[1..][1..][1..][1..] == [];
    assert RunValue(digits, 8, 0) == 512;
  }

  lemma BackwardField()
    ensures TarField(BackwardBlock(), 124, 12) == [0x2D, 0x31, 0x30, 0x30, 0x30]
  {
    var field := Sub(BackwardBlock(), 124, 136);
    assert field == [0x2D, 0x31, 0x30, 0x30, 0x30] + Fill(NUL, 7);
    IndexOfIs(field, NUL, 5);
  }

  lemma BackwardBlockStands()
    ensures !Halted(BackwardBlock(), 0)
    ensures NextOff(BackwardBlock(), 0) == 0
  {
    hide ParseInt, TarField;
    var buf := BackwardBlock();
    assert HeaderAt(buf, 0) == buf;
    assert buf[124] == 0x2D;
    BackwardField();
    BackwardDigits();
  }

  /** A size field may be negative, and then reading need not halt. */
  lemma {:induction false} NegativeSizeNeverHalts(n: nat)
    ensures !Stops(BackwardBlock(), 0, n)
  {
    hide Halted, NextOff, BackwardBlock;
    BackwardBlockStands();
    if n > 0 {
      NegativeSizeNeverHalts(n - 1);
    }
  }

  /** So one short file may keep the reader going for ever. */
  lemma BackwardBlockReturns()
    ensures Returns(BackwardBlock(), 0, 1)
  {
    hide Halted, BackwardBlock, NextOff;
    BackwardBlockStands();
    NegativeSizeNeverHalts(1);
    assert Place(BackwardBlock(), 0, 1) == Place(BackwardBlock(), NextOff(BackwardBlock(), 0), 0);
  }
}
