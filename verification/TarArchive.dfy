/** Writing an archive and reading it back (`lib/tar.js`). */
module TarArchive {
  import opened Common
  import opened TarFormat

  datatype Entry = Entry(name: Bytes, data: Bytes, mtime: nat)

  /** What the reader returns of an entry. */
  datatype File = File(name: Bytes, data: Bytes)

  // ---------- writing ----------

  /** Zero bytes from `n` up to the next block. */
  function Pad(n: nat): nat {
    (512 - n % 512) % 512
  }

  /** A header, its body, and the padding after it. */
  function Chunk(h: Header, body: Bytes): Bytes {
    RawHeader(h) + body + Fill(NUL, Pad(|body|))
  }

  /** The name up to its last slash, that one included. */
  function ThroughSlash(name: Bytes): Bytes {
    if name == [] then [] else if name[|name| - 1] == SLASH then name else ThroughSlash(name[..|name| - 1])
  }

  /** The directory with its slash; none for a name without one, or with nothing before it. */
  function Directory(name: Bytes): Bytes {
    if |ThroughSlash(name)| <= 1 then [] else ThroughSlash(name)
  }

  function PlainHeader(s: Split, size: nat, mtime: nat): Header {
    Header(s.name, s.prefix, size, mtime, REGULAR)
  }

  function PaxHeaderOf(hash: Bytes -> Bytes, name: Bytes, mtime: nat): Header {
    Header(Directory(name) + PAX_HEADERS + hash(name), [], |PaxRecord(PATH, name)|, mtime, PAX)
  }

  function StubHeader(hash: Bytes -> Bytes, name: Bytes, size: nat, mtime: nat): Header {
    Header(Directory(name) + LONGNAME + hash(name), [], size, mtime, REGULAR)
  }

  /** The header bytes of one entry: plain where the name splits, a pax record and a stub elsewhere.
      `hash` stands for the shortened digest in the stub's name. */
  function EntryHeader(hash: Bytes -> Bytes, name: Bytes, size: nat, mtime: nat): Bytes {
    match SplitName(name)
    case Some(s) => RawHeader(PlainHeader(s, size, mtime))
    case None =>
      Chunk(PaxHeaderOf(hash, name, mtime), PaxRecord(PATH, name)) + RawHeader(StubHeader(hash, name, size, mtime))
  }

  function EntryBytes(hash: Bytes -> Bytes, e: Entry): Bytes {
    EntryHeader(hash, e.name, |e.data|, e.mtime) + e.data + Fill(NUL, Pad(|e.data|))
  }

  function Archive(hash: Bytes -> Bytes, es: seq<Entry>): Bytes {
    if es == [] then Fill(NUL, 1024) else EntryBytes(hash, es[0]) + Archive(hash, es[1..])
  }

  /** Sizes and times fit their twelve-byte fields. */
  predicate Fits(e: Entry) {
    |e.data| < FIELD_LIMIT && e.mtime < FIELD_LIMIT && |PaxRecord(PATH, e.name)| < FIELD_LIMIT
  }

  method DirectoryOf(name: Bytes) returns (r: Bytes)
    ensures r == Directory(name)
  {
    var i := LastSlash(name, |name| - 1);
    SlashEndsAt(name, i);
    r := if i > 0 then name[..i + 1] else [];
  }

  lemma {:induction false} SlashEndsAt(name: Bytes, i: int)
    requires -1 <= i < |name| && (i >= 0 ==> name[i] == SLASH)
    requires forall j | i < j < |name| && 0 <= j :: name[j] != SLASH
    ensures ThroughSlash(name) == name[..i + 1]
  {
    if i == |name| - 1 {
      assert name[..i + 1] == name;
    } else {
      var shorter := name[..|name| - 1];
      SlashEndsAt(shorter, i);
      assert shorter[..i + 1] == name[..i + 1];
    }
  }

  method TarEntryHeader(hash: Bytes -> Bytes, name: Bytes, size: nat, mtime: nat) returns (r: Bytes)
    requires size < FIELD_LIMIT && mtime < FIELD_LIMIT && |PaxRecord(PATH, name)| < FIELD_LIMIT
    ensures r == EntryHeader(hash, name, size, mtime)
  {
    hide RawHeader, PaxRecord, SplitName, Directory;
    var split := SplitUstarName(name);
    if split.Some? {
      var plain := RawTarHeader(PlainHeader(split.value, size, mtime));
      return plain[..];
    }
    var dir := DirectoryOf(name);
    var pax := PaxRecordText(PATH, name);
    var first := RawTarHeader(Header(dir + PAX_HEADERS + hash(name), [], |pax|, mtime, PAX));
    var second := RawTarHeader(Header(dir + LONGNAME + hash(name), [], size, mtime, REGULAR));
    r := first[..] + pax + Fill(NUL, (512 - |pax| % 512) % 512) + second[..];
  }

  method BuildTarballEntries(hash: Bytes -> Bytes, es: seq<Entry>) returns (out: Bytes)
    requires forall e | e in es :: Fits(e)
    ensures out == Archive(hash, es)
  {
    hide EntryHeader, PaxRecord;
    out := [];
    for i := 0 to |es|
      invariant out + Archive(hash, es[i..]) == Archive(hash, es)
    {
      var e := es[i];
      assert Fits(e);
      var header := TarEntryHeader(hash, e.name, |e.data|, e.mtime);
      ghost var before, rest := out, Archive(hash, es[i + 1..]);
      out := out + header;
      out := out + e.data;
      var pad := (512 - |e.data| % 512) % 512;
      if pad > 0 {
        out := out + Fill(NUL, pad);
      }
      assert es[i..][1..] == es[i + 1..];
      assert EntryBytes(hash, e) == header + e.data + Fill(NUL, pad);
      assert out == before + EntryBytes(hash, e);
      assert out + rest == before + (EntryBytes(hash, e) + rest);
    }
    out := out + Fill(NUL, 1024);
  }

  // ---------- reading ----------

  predicate AllZero(s: Bytes) {
    forall k | 0 <= k < |s| :: s[k] == NUL
  }

  /** What stands before the first NUL. */
  function CutNul(s: Bytes): (r: Bytes)
    ensures r <= s && NUL !in r && (|r| < |s| ==> s[|r|] == NUL)
  {
    var i := IndexOf(s, NUL, 0);
    if i < 0 then s else s[..i]
  }

  function TarField(header: Bytes, start: nat, len: nat): Bytes {
    CutNul(Sub(header, start, start + len))
  }

  /** A nonempty prefix is rejoined to the name with a slash. */
  function Rejoin(prefix: Bytes, name: Bytes): Bytes {
    if prefix == [] then name else prefix + [SLASH] + name
  }

  function NameOf(header: Bytes): Bytes {
    Rejoin(TarField(header, 345, 155), TarField(header, 0, 100))
  }

  function SizeOf(header: Bytes): int {
    ParseInt(TarField(header, 124, 12), 8).GetOr(0)
  }

  function FlagOf(header: Bytes): int {
    if |header| > 156 then header[156] else -1
  }

  function HeaderAt(buf: Bytes, off: int): Bytes {
    Sub(buf, off, off + 512)
  }

  /** `Math.ceil(size / 512) * 512`. */
  function Ceil512(size: int): int {
    -((-size) / 512) * 512
  }

  predicate Halted(buf: Bytes, off: int) {
    off + 512 > |buf| || AllZero(HeaderAt(buf, off))
  }

  function BodyAt(buf: Bytes, off: int): Bytes {
    Sub(buf, off + 512, off + 512 + SizeOf(HeaderAt(buf, off)))
  }

  /** The file one turn of the reader adds, if any. */
  function Yields(buf: Bytes, off: int, pax: Option<Bytes>): seq<File> {
    var header := HeaderAt(buf, off);
    var full := if pax.GetOr([]) != [] then pax.value else NameOf(header);
    if (FlagOf(header) == REGULAR || FlagOf(header) == NUL) && full != [] then [File(full, BodyAt(buf, off))] else []
  }

  /** A pax header names the entry after it, and only that one. */
  function NextPax(buf: Bytes, off: int): Option<Bytes> {
    if FlagOf(HeaderAt(buf, off)) == PAX then PathFrom(BodyAt(buf, off), 0, None) else None
  }

  function NextOff(buf: Bytes, off: int): int {
    off + 512 + Ceil512(SizeOf(HeaderAt(buf, off)))
  }

  /** The files the reader's first `n` turns add, starting at `off`. */
  function Run(buf: Bytes, off: int, pax: Option<Bytes>, n: nat): seq<File>
    decreases n
  {
    if n == 0 || Halted(buf, off) then []
    else Yields(buf, off, pax) + Run(buf, NextOff(buf, off), NextPax(buf, off), n - 1)
  }

  /** The reader comes to a halt within `n` turns. */
  predicate Stops(buf: Bytes, off: int, n: nat)
    decreases n
  {
    Halted(buf, off) || (n > 0 && Stops(buf, NextOff(buf, off), n - 1))
  }

  /** The reader, on any buffer it halts on at all. */
  method Extract(buf: Bytes, ghost n: nat) returns (entries: seq<File>)
    requires Stops(buf, 0, n)
    ensures entries == Run(buf, 0, None, n)
  {
    hide ParseInt, Sub, TarField, AllZero, Run, Stops, PathFrom, NameOf, SizeOf, FlagOf, Ceil512, HeaderAt;
    entries := [];
    var off := 0;
    var paxPath: Option<Bytes> := None;
    ghost var left := n;
    while off + 512 <= |buf|
      invariant Stops(buf, off, left)
      invariant entries + Run(buf, off, paxPath, left) == Run(buf, 0, None, n)
      decreases left
    {
      var header := Sub(buf, off, off + 512);
      if AllZero(header) {
        break;
      }
      FieldsOf(buf, off);
      OneTurn(buf, off, paxPath, left);
      ghost var done, here, pending := entries, off, paxPath;
      var prefix := TarField(header, 345, 155);
      var name := if prefix != [] then prefix + [SLASH] + TarField(header, 0, 100) else TarField(header, 0, 100);
      var size := ParseInt(TarField(header, 124, 12), 8).GetOr(0);
      var flag := if |header| > 156 then header[156] else -1;
      off := off + 512;
      if flag == PAX {
        paxPath := ParsePaxPath(Sub(buf, off, off + size));
      } else {
        if flag == REGULAR || flag == NUL {
          var full := if paxPath.GetOr([]) != [] then paxPath.value else name;
          if full != [] {
            entries := entries + [File(full, Sub(buf, off, off + size))];
          }
        }
        paxPath := None;
      }
      off := off + Ceil512(size);
      left := left - 1;
      assert entries == done + Yields(buf, here, pending);
      assert off == NextOff(buf, here) && paxPath == NextPax(buf, here);
    }
    FieldsOf(buf, off);
    HaltedAddsNothing(buf, off, paxPath, left);
  }

  lemma FieldsOf(buf: Bytes, off: int)
    ensures HeaderAt(buf, off) == Sub(buf, off, off + 512)
    ensures var h := Sub(buf, off, off + 512);
            var prefix := TarField(h, 345, 155);
            && NameOf(h) == (if prefix != [] then prefix + [SLASH] + TarField(h, 0, 100) else TarField(h, 0, 100))
            && SizeOf(h) == ParseInt(TarField(h, 124, 12), 8).GetOr(0)
            && FlagOf(h) == if |h| > 156 then h[156] else -1
  {
    hide ParseInt, Sub, TarField;
  }

  lemma OneTurn(buf: Bytes, off: int, pax: Option<Bytes>, n: nat)
    requires !Halted(buf, off) && Stops(buf, off, n)
    ensures n > 0 && Stops(buf, NextOff(buf, off), n - 1)
    ensures Run(buf, off, pax, n)
         == Yields(buf, off, pax) + Run(buf, NextOff(buf, off), NextPax(buf, off), n - 1)
  {
    hide Halted, NextOff, NextPax, Yields;
  }

  lemma HaltedAddsNothing(buf: Bytes, off: int, pax: Option<Bytes>, n: nat)
    requires Halted(buf, off)
    ensures Run(buf, off, pax, n) == []
  {
    hide Halted;
  }

  // ---------- when reading halts ----------

  /** Extra turns change nothing once the reader has halted. */
  lemma {:induction false} HaltingSettlesTheAnswer(buf: Bytes, off: int, pax: Option<Bytes>, n: nat, m: nat)
    requires Stops(buf, off, n) && n <= m
    ensures Stops(buf, off, m) && Run(buf, off, pax, m) == Run(buf, off, pax, n)
    decreases n
  {
    hide Halted, NextOff, NextPax, Yields;
    if !Halted(buf, off) {
      HaltingSettlesTheAnswer(buf, NextOff(buf, off), NextPax(buf, off), n - 1, m - 1);
    }
  }

  // ---------- one header read back ----------

  lemma CutPadded(field: Bytes, s: Bytes)
    requires |s| <= |field| && forall k | 0 <= k < |field| :: field[k] == FieldByte(s, k)
    ensures CutNul(field) == CutNul(s)
  {
    var i := IndexOf(s, NUL, 0);
    if i >= 0 {
      IndexOfIs(field, NUL, i);
      assert field[..i] == s[..i];
    } else if |s| < |field| {
      IndexOfIs(field, NUL, |s|);
      assert field[..|s|] == s;
    } else {
      assert field == s;
    }
  }

  lemma NoNulToCut(s: Bytes)
    requires NUL !in s
    ensures CutNul(s) == s
  {
  }

  lemma FieldReadsBack(h: Header, start: nat, len: nat, s: Bytes)
    requires start + len <= 512 && |s| <= len
    requires forall k | 0 <= k < len :: RawHeader(h)[start + k] == FieldByte(s, k)
    ensures TarField(RawHeader(h), start, len) == CutNul(s)
  {
    hide RawHeader, FieldByte;
    var field := Sub(RawHeader(h), start, start + len);
    assert |field| == len;
    forall k | 0 <= k < |field|
      ensures field[k] == FieldByte(s, k)
    {
      assert field[k] == RawHeader(h)[start + k];
    }
    CutPadded(field, s);
  }

  /** The four fields the reader looks at. */
  lemma HeaderReadsBack(h: Header)
    requires Writable(h)
    ensures NameOf(RawHeader(h)) == Rejoin(CutNul(Clip(h.prefix, 155)), CutNul(Clip(h.name, 100)))
    ensures SizeOf(RawHeader(h)) == h.size
    ensures FlagOf(RawHeader(h)) == h.flag
    ensures !AllZero(RawHeader(h))
  {
    hide Padded, Clip, TarField, ParseInt, Checksum, CutNul, FieldByte;
    FieldNumeralFits(h.size);
    FieldReadsBack(h, 0, 100, Clip(h.name, 100));
    FieldReadsBack(h, 345, 155, Clip(h.prefix, 155));
    FieldReadsBack(h, 124, 12, Padded(h.size, 8, 11));
    NoNulToCut(Padded(h.size, 8, 11));
    ParsePadded(h.size, 8, 11);
    assert RawHeader(h)[100] == MODE[0];
  }

  // ---------- one chunk read back ----------

  lemma CeilIsPadded(n: nat)
    ensures Ceil512(n) == n + Pad(n)
  {
  }

  lemma ChunkReadsBack(buf: Bytes, off: nat, h: Header, body: Bytes)
    requires Writable(h) && h.size == |body|
    requires off + |Chunk(h, body)| <= |buf| && buf[off..off + |Chunk(h, body)|] == Chunk(h, body)
    ensures !Halted(buf, off)
    ensures HeaderAt(buf, off) == RawHeader(h)
    ensures BodyAt(buf, off) == body
    ensures NextOff(buf, off) == off + |Chunk(h, body)|
  {
    hide RawHeader, SizeOf, AllZero, FlagOf, NameOf, Ceil512, Pad, Chunk;
    var c := Chunk(h, body);
    CeilIsPadded(|body|);
    HeaderReadsBack(h);
    ChunkParts(h, body);
    SliceOfSlice(buf, off, |c|, 0, 512);
    SliceOfSlice(buf, off, |c|, 512, 512 + |body|);
  }

  lemma ChunkParts(h: Header, body: Bytes)
    ensures |Chunk(h, body)| == 512 + |body| + Pad(|body|)
    ensures Chunk(h, body)[0..512] == RawHeader(h)
    ensures Chunk(h, body)[512..512 + |body|] == body
  {
    hide RawHeader, Pad;
  }

  lemma SliceOfSlice(buf: Bytes, off: nat, n: nat, a: nat, b: nat)
    requires off + n <= |buf| && a <= b <= n
    ensures buf[off..off + n][a..b] == buf[off + a..off + b]
  {
    var whole := buf[off..off + n];
    forall k | 0 <= k < b - a
      ensures whole[a..b][k] == buf[off + a..off + b][k]
    {
      assert whole[a..b][k] == whole[a + k] == buf[off + a + k];
    }
  }

  // ---------- one entry read back ----------

  /** The name a plain header gives back: each half up to its first NUL. */
  function PlainName(s: Split): Bytes {
    Rejoin(CutNul(s.prefix), CutNul(s.name))
  }

  function NameRead(name: Bytes): Bytes {
    match SplitName(name)
    case Some(s) => PlainName(s)
    case None => name
  }

  /** What comes back of one entry. */
  function Got(e: Entry): seq<File> {
    if NameRead(e.name) == [] then [] else [File(NameRead(e.name), e.data)]
  }

  function TurnsFor(e: Entry): nat {
    if SplitName(e.name).Some? then 1 else 2
  }

  /** A pax header yields nothing and leaves its path pending. */
  lemma PaxTurn(buf: Bytes, off: nat, x: Header, name: Bytes)
    requires Writable(x) && x.flag == PAX && x.size == |PaxRecord(PATH, name)|
    requires var c := Chunk(x, PaxRecord(PATH, name)); off + |c| <= |buf| && buf[off..off + |c|] == c
    ensures !Halted(buf, off) && NextOff(buf, off) == off + |Chunk(x, PaxRecord(PATH, name))|
    ensures Yields(buf, off, None) == [] && NextPax(buf, off) == Some(name)
  {
    hide RawHeader, PaxRecord, NameOf, PathFrom, Chunk, Halted, HeaderAt, BodyAt, NextOff, FlagOf;
    PaxRoundTrip(name);
    HeaderReadsBack(x);
    ChunkReadsBack(buf, off, x, PaxRecord(PATH, name));
  }

  /** A regular header yields its file under the pending path, or under its own name without one. */
  lemma RegularTurn(buf: Bytes, off: nat, h: Header, data: Bytes, pax: Option<Bytes>)
    requires Writable(h) && h.flag == REGULAR && h.size == |data|
    requires off + |Chunk(h, data)| <= |buf| && buf[off..off + |Chunk(h, data)|] == Chunk(h, data)
    ensures !Halted(buf, off) && NextOff(buf, off) == off + |Chunk(h, data)| && NextPax(buf, off) == None
    ensures var own := Rejoin(CutNul(Clip(h.prefix, 155)), CutNul(Clip(h.name, 100)));
            var full := if pax.GetOr([]) != [] then pax.value else own;
            Yields(buf, off, pax) == if full == [] then [] else [File(full, data)]
  {
    hide RawHeader, NameOf, PathFrom, Chunk, Halted, HeaderAt, BodyAt, NextOff, FlagOf, Rejoin, CutNul, Clip;
    HeaderReadsBack(h);
    ChunkReadsBack(buf, off, h, data);
  }

  /** The two turns a long name takes: the pax header, then the stub it renames. */
  lemma {:induction false} LongEntryReadsBack(hash: Bytes -> Bytes, buf: Bytes, off: nat, e: Entry, n: nat)
    requires Fits(e) && SplitName(e.name).None?
    requires off + |EntryBytes(hash, e)| <= |buf| && buf[off..off + |EntryBytes(hash, e)|] == EntryBytes(hash, e)
    ensures Run(buf, off, None, n + 2) == Got(e) + Run(buf, off + |EntryBytes(hash, e)|, None, n)
    ensures Stops(buf, off, n + 2) == Stops(buf, off + |EntryBytes(hash, e)|, n)
  {
    hide RawHeader, PaxRecord, SplitName, PaxHeaderOf, StubHeader, Halted, NextOff, NextPax, Yields, Pad, Chunk, EntryBytes,
         Run, Stops, Rejoin, CutNul, Clip, Fits;
    var record := PaxRecord(PATH, e.name);
    var x, stub := PaxHeaderOf(hash, e.name, e.mtime), StubHeader(hash, e.name, |e.data|, e.mtime);
    LongHeaders(hash, e);
    SplitSaysName(e.name);
    var first, second := Chunk(x, record), Chunk(stub, e.data);
    LongEntryIsTwoChunks(hash, e);
    var mid := off + |first|;
    PartsInPlace(buf, off, first, second);
    PaxTurn(buf, off, x, e.name);
    RegularTurn(buf, mid, stub, e.data, Some(e.name));
    TwoTurns(buf, off, n);
  }

  lemma PartsInPlace(buf: Bytes, off: nat, first: Bytes, second: Bytes)
    requires off + |first + second| <= |buf| && buf[off..off + |first + second|] == first + second
    ensures buf[off..off + |first|] == first
    ensures buf[off + |first|..off + |first| + |second|] == second
  {
    var read := buf[off..off + |first + second|];
    assert buf[off..off + |first|] == read[..|first|];
    assert buf[off + |first|..off + |first| + |second|] == read[|first|..];
  }

  lemma LongEntryIsTwoChunks(hash: Bytes -> Bytes, e: Entry)
    requires SplitName(e.name).None?
    ensures EntryBytes(hash, e) == Chunk(PaxHeaderOf(hash, e.name, e.mtime), PaxRecord(PATH, e.name))
                                   + Chunk(StubHeader(hash, e.name, |e.data|, e.mtime), e.data)
  {
    hide RawHeader, PaxRecord, SplitName, PaxHeaderOf, StubHeader;
    var c := Chunk(PaxHeaderOf(hash, e.name, e.mtime), PaxRecord(PATH, e.name));
    var r := RawHeader(StubHeader(hash, e.name, |e.data|, e.mtime));
    var pad := Fill(NUL, Pad(|e.data|));
    assert c + r + e.data + pad == c + (r + e.data + pad);
  }

  lemma LongHeaders(hash: Bytes -> Bytes, e: Entry)
    requires Fits(e)
    ensures var x := PaxHeaderOf(hash, e.name, e.mtime);
            Writable(x) && x.size == |PaxRecord(PATH, e.name)| && x.flag == PAX
    ensures var stub := StubHeader(hash, e.name, |e.data|, e.mtime);
            Writable(stub) && stub.size == |e.data| && stub.flag == REGULAR
  {
  }

  lemma TwoTurns(buf: Bytes, off: int, n: nat)
    requires !Halted(buf, off) && !Halted(buf, NextOff(buf, off))
    ensures var mid := NextOff(buf, off);
            && Run(buf, off, None, n + 2)
               == Yields(buf, off, None) + (Yields(buf, mid, NextPax(buf, off)) + Run(buf, NextOff(buf, mid), NextPax(buf, mid), n))
            && Stops(buf, off, n + 2) == Stops(buf, NextOff(buf, mid), n)
  {
    hide Halted, NextOff, NextPax, Yields;
    var mid := NextOff(buf, off);
    assert Run(buf, mid, NextPax(buf, off), n + 1)
        == Yields(buf, mid, NextPax(buf, off)) + Run(buf, NextOff(buf, mid), NextPax(buf, mid), n);
    assert Stops(buf, mid, n + 1) == Stops(buf, NextOff(buf, mid), n);
  }

  lemma ShortEntryReadsBack(hash: Bytes -> Bytes, buf: Bytes, off: nat, e: Entry, n: nat)
    requires Fits(e) && SplitName(e.name).Some?
    requires off + |EntryBytes(hash, e)| <= |buf| && buf[off..off + |EntryBytes(hash, e)|] == EntryBytes(hash, e)
    ensures Run(buf, off, None, n + 1) == Got(e) + Run(buf, off + |EntryBytes(hash, e)|, None, n)
    ensures Stops(buf, off, n + 1) == Stops(buf, off + |EntryBytes(hash, e)|, n)
  {
    hide RawHeader, PaxRecord, SplitName, Halted, NextOff, NextPax, Yields, CutNul;
    var s := SplitName(e.name).value;
    var h := PlainHeader(s, |e.data|, e.mtime);
    SplitSaysName(e.name);
    assert EntryBytes(hash, e) == Chunk(h, e.data);
    RegularTurn(buf, off, h, e.data, None);
  }

  // ---------- the whole archive ----------

  function Turns(es: seq<Entry>): nat {
    if es == [] then 0 else TurnsFor(es[0]) + Turns(es[1..])
  }

  function AllGot(es: seq<Entry>): seq<File> {
    if es == [] then [] else Got(es[0]) + AllGot(es[1..])
  }

  /** From any point where the rest of the buffer is an archive, the reader takes its entries and halts. */
  lemma {:induction false} ArchiveReadsBack(hash: Bytes -> Bytes, es: seq<Entry>, buf: Bytes, off: nat)
    requires forall e | e in es :: Fits(e)
    requires off <= |buf| && buf[off..] == Archive(hash, es)
    ensures Stops(buf, off, Turns(es))
    ensures Run(buf, off, None, Turns(es)) == AllGot(es)
    decreases |es|
  {
    hide EntryBytes, Got, Fits, SplitName, Run, Stops;
    if es == [] {
      ZeroBlockHalts(buf, off);
    } else {
      var e, rest := es[0], es[1..];
      var bytes := EntryBytes(hash, e);
      assert Fits(e);
      assert buf[off..] == bytes + Archive(hash, rest);
      assert buf[off..off + |bytes|] == buf[off..][..|bytes|] == bytes;
      var next := off + |bytes|;
      assert buf[next..] == buf[off..][|bytes|..] == Archive(hash, rest);
      if SplitName(e.name).Some? {
        ShortEntryReadsBack(hash, buf, off, e, Turns(rest));
      } else {
        LongEntryReadsBack(hash, buf, off, e, Turns(rest));
      }
      ArchiveReadsBack(hash, rest, buf, next);
    }
  }

  lemma ZeroBlockHalts(buf: Bytes, off: nat)
    requires off <= |buf| && buf[off..] == Fill(NUL, 1024)
    ensures Stops(buf, off, 0) && Run(buf, off, None, 0) == []
  {
    var header := HeaderAt(buf, off);
    assert header == buf[off..][..512];
  }

  // ---------- exactly when everything comes back ----------

  /** A nonempty name; without a NUL where it goes into the header's own fields. */
  predicate Storable(e: Entry) {
    e.name != [] && (SplitName(e.name).Some? ==> NUL !in e.name)
  }

  function Stripped(es: seq<Entry>): seq<File> {
    if es == [] then [] else [File(es[0].name, es[0].data)] + Stripped(es[1..])
  }

  function Weight(files: seq<File>): nat {
    if files == [] then 0 else |files[0].name| + 1 + Weight(files[1..])
  }

  lemma {:induction false} WeightAdds(a: seq<File>, b: seq<File>)
    ensures Weight(a + b) == Weight(a) + Weight(b)
  {
    if a == [] {
      assert a + b == b;
    } else {
      WeightAdds(a[1..], b);
      assert (a + b)[1..] == a[1..] + b;
    }
  }

  lemma RejoinedLength(prefix: Bytes, name: Bytes, s: Split)
    requires prefix <= s.prefix && name <= s.name
    ensures |Rejoin(prefix, name)| <= |Rejoin(s.prefix, s.name)|
    ensures (prefix != s.prefix || name != s.name) ==> |Rejoin(prefix, name)| < |Rejoin(s.prefix, s.name)|
  {
  }

  /** An entry comes back whole exactly when it is storable, and lighter otherwise. */
  lemma EntryComesBack(e: Entry)
    ensures Storable(e) ==> Got(e) == [File(e.name, e.data)]
    ensures !Storable(e) ==> Weight(Got(e)) < |e.name| + 1
    ensures Weight(Got(e)) <= |e.name| + 1
  {
    hide CutNul, SplitName;
    SplitSaysName(e.name);
    if SplitName(e.name).Some? {
      var s := SplitName(e.name).value;
      assert e.name == Rejoin(s.prefix, s.name);
      RejoinedLength(CutNul(s.prefix), CutNul(s.name), s);
      if NUL in e.name {
        NulIsInAHalf(s);
      } else {
        NoNulToCut(s.prefix);
        NoNulToCut(s.name);
      }
    }
  }

  lemma NulIsInAHalf(s: Split)
    requires NUL in Rejoin(s.prefix, s.name)
    ensures CutNul(s.prefix) != s.prefix || CutNul(s.name) != s.name
  {
    var whole := Rejoin(s.prefix, s.name);
    var i :| 0 <= i < |whole| && whole[i] == NUL;
    assert NUL in s.prefix || NUL in s.name;
  }

  lemma {:induction false} GotIsLighter(es: seq<Entry>)
    ensures Weight(AllGot(es)) <= Weight(Stripped(es))
    ensures (exists e :: e in es && !Storable(e)) ==> Weight(AllGot(es)) < Weight(Stripped(es))
  {
    hide Got, Storable;
    if es != [] {
      GotIsLighter(es[1..]);
      EntryComesBack(es[0]);
      WeightAdds(Got(es[0]), AllGot(es[1..]));
    }
  }

  lemma {:induction false} StorableComesBack(es: seq<Entry>)
    requires forall e | e in es :: Storable(e)
    ensures AllGot(es) == Stripped(es)
  {
    hide Got, Storable;
    if es != [] {
      StorableComesBack(es[1..]);
      EntryComesBack(es[0]);
    }
  }

  /** Reading a written archive halts, and gives back exactly the names and bytes that went in
      if and only if every name is storable. */
  lemma {:induction false} TarRoundTrip(hash: Bytes -> Bytes, es: seq<Entry>)
    requires forall e | e in es :: Fits(e)
    ensures Stops(Archive(hash, es), 0, Turns(es))
    ensures Run(Archive(hash, es), 0, None, Turns(es)) == Stripped(es) <==> forall e | e in es :: Storable(e)
  {
    hide *;
    var buf := Archive(hash, es);
    assert buf[0..] == buf;
    ArchiveReadsBack(hash, es, buf, 0);
    GotIsLighter(es);
    if forall e | e in es :: Storable(e) {
      StorableComesBack(es);
    }
  }
}
