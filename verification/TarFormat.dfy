/** The ustar header block, its name encodings and the pax record (`lib/tar.js`, after
    the "ustar Interchange Format" and "pax Extended Header" of IEEE Std 1003.1). */
module TarFormat {
  import opened Common

  type Byte = b: int | 0 <= b < 256

  /** Names are held as their UTF-8 encoding. */
  type Bytes = seq<Byte>

  const NUL: Byte := 0
  const SPACE: Byte := 0x20
  const SLASH: Byte := 0x2F
  const ZERO: Byte := 0x30
  const NEWLINE: Byte := 0x0A
  const EQUALS: Byte := 0x3D
  const REGULAR: Byte := 0x30
  const PAX: Byte := 0x78

  const PATH: Bytes := [0x70, 0x61, 0x74, 0x68]
  const MODE: Bytes := [0x30, 0x30, 0x30, 0x30, 0x36, 0x34, 0x34, 0]
  const OWNER: Bytes := [0x30, 0x30, 0x30, 0x30, 0x30, 0x30, 0x30, 0]
  const MAGIC: Bytes := [0x75, 0x73, 0x74, 0x61, 0x72, 0]
  const VERSION: Bytes := [0x30, 0x30]
  const PAX_HEADERS: Bytes := [0x50, 0x61, 0x78, 0x48, 0x65, 0x61, 0x64, 0x65, 0x72, 0x73, 0x2F]
  const LONGNAME: Bytes := [0x6C, 0x6F, 0x6E, 0x67, 0x6E, 0x61, 0x6D, 0x65, 0x2D]

  /** What a twelve-byte octal field can hold without its terminator. */
  const FIELD_LIMIT: nat := 0x10_0000_0000

  function Fill(b: Byte, n: nat): (r: Bytes)
    ensures |r| == n && forall k | 0 <= k < n :: r[k] == b
  {
    seq(n, _ => b)
  }

  // ---------- numerals ----------

  predicate IsDigitIn(b: Byte, radix: nat) {
    ZERO <= b < ZERO + radix
  }

  /** `n.toString(radix)`, most significant digit first. */
  function Numeral(n: nat, radix: nat): (r: Bytes)
    requires 2 <= radix <= 10
    ensures |r| > 0 && forall k | 0 <= k < |r| :: IsDigitIn(r[k], radix)
    decreases n
  {
    if n < radix then [ZERO + n]
    else
      assert n / radix < n;
      Numeral(n / radix, radix) + [ZERO + n % radix]
  }

  /** `padStart(width, "0")`. */
  function Padded(n: nat, radix: nat, width: nat): (r: Bytes)
    requires 2 <= radix <= 10
    ensures |r| >= width && |r| > 0 && forall k | 0 <= k < |r| :: IsDigitIn(r[k], radix)
  {
    var digits := Numeral(n, radix);
    if |digits| >= width then digits else Fill(ZERO, width - |digits|) + digits
  }

  function Power(radix: nat, k: nat): nat {
    if k == 0 then 1 else radix * Power(radix, k - 1)
  }

  lemma QuotientIsBelow(n: nat, radix: nat, p: nat)
    requires radix > 0 && n < radix * p
    ensures n / radix < p
  {
  }

  lemma QuotientFits(n: nat, radix: nat, k: nat)
    requires 2 <= radix <= n && k > 0 && n < Power(radix, k)
    ensures k > 1 && n / radix < Power(radix, k - 1)
  {
    assert Power(radix, 0) == 1;
    assert Power(radix, 1) == radix * Power(radix, 0) == radix;
    QuotientIsBelow(n, radix, Power(radix, k - 1));
  }

  lemma {:induction false} NumeralFits(n: nat, radix: nat, k: nat)
    requires 2 <= radix <= 10 && k > 0 && n < Power(radix, k)
    ensures |Numeral(n, radix)| <= k
  {
    hide Power;
    if n >= radix {
      QuotientFits(n, radix, k);
      NumeralFits(n / radix, radix, k - 1);
    }
  }

  lemma FieldNumeralFits(n: nat)
    requires n < FIELD_LIMIT
    ensures |Padded(n, 8, 11)| <= 12
  {
    assert Power(8, 12) == FIELD_LIMIT;
    NumeralFits(n, 8, 12);
  }

  lemma {:induction false} NumeralMonotone(m: nat, n: nat)
    requires m <= n
    ensures |Numeral(m, 10)| <= |Numeral(n, 10)|
    decreases n
  {
    if n >= 10 && m >= 10 {
      NumeralMonotone(m / 10, n / 10);
    }
  }

  /** A numeral is never longer than a tenth of its number, plus one. */
  lemma {:induction false} NumeralIsShort(n: nat)
    ensures |Numeral(n, 10)| <= n / 10 + 1
  {
    if n >= 10 {
      NumeralIsShort(n / 10);
    }
  }

  // ---------- parseInt ----------

  predicate IsWhite(b: Byte) {
    9 <= b <= 13 || b == SPACE
  }

  function SkipWhite(s: Bytes): Bytes {
    if s != [] && IsWhite(s[0]) then SkipWhite(s[1..]) else s
  }

  function PushDigit(acc: nat, radix: nat, digit: nat): nat {
    acc * radix + digit
  }

  /** The value of the leading run of digits, read onto `acc`. */
  function RunValue(s: Bytes, radix: nat, acc: nat): nat {
    if s != [] && IsDigitIn(s[0], radix) then RunValue(s[1..], radix, PushDigit(acc, radix, s[0] - ZERO)) else acc
  }

  function Unsigned(s: Bytes, radix: nat): Option<nat> {
    if s != [] && IsDigitIn(s[0], radix) then Some(RunValue(s, radix, 0)) else None
  }

  /** `parseInt(s, radix)`, with `None` for NaN. */
  function ParseInt(s: Bytes, radix: nat): Option<int> {
    var t := SkipWhite(s);
    var negative := t != [] && t[0] == 0x2D;
    var signed := negative || (t != [] && t[0] == 0x2B);
    var u := Unsigned(if signed then t[1..] else t, radix);
    if u.None? then None
    else
      var n: int := u.value;
      Some(if negative then -n else n)
  }

  lemma {:induction false} DigitsRecombine(n: nat, radix: nat)
    requires 2 <= radix <= 10
    ensures PushDigit(n / radix, radix, n % radix) == n
    ensures n / radix < n || n == 0
    ensures n < radix ==> PushDigit(0, radix, n) == n
  {
  }

  lemma {:induction false} RunValueOfNumeral(n: nat, radix: nat, rest: Bytes)
    requires 2 <= radix <= 10
    ensures RunValue(Numeral(n, radix) + rest, radix, 0) == RunValue(rest, radix, n)
    decreases n
  {
    hide PushDigit;
    if n < radix {
      DigitsRecombine(n, radix);
      var s := [ZERO + n] + rest;
      assert s[1..] == rest;
    } else {
      var q, d := n / radix, n % radix;
      DigitsRecombine(n, radix);
      var tail := [ZERO + d] + rest;
      RunValueOfNumeral(q, radix, tail);
      assert Numeral(n, radix) + rest == Numeral(q, radix) + tail;
      assert tail[1..] == rest;
    }
  }

  lemma {:induction false} RunValueOfZeros(k: nat, radix: nat, rest: Bytes)
    requires 2 <= radix <= 10
    ensures RunValue(Fill(ZERO, k) + rest, radix, 0) == RunValue(rest, radix, 0)
  {
    if k == 0 {
      assert Fill(ZERO, 0) + rest == rest;
    } else {
      RunValueOfZeros(k - 1, radix, rest);
      assert (Fill(ZERO, k) + rest)[1..] == Fill(ZERO, k - 1) + rest;
    }
  }

  /** Reading a padded numeral gives back its number. */
  lemma {:induction false} ParsePadded(n: nat, radix: nat, width: nat)
    requires 2 <= radix <= 10
    ensures ParseInt(Padded(n, radix, width), radix) == Some(n as int)
  {
    var digits := Numeral(n, radix);
    RunValueOfNumeral(n, radix, []);
    assert digits + [] == digits;
    if |digits| < width {
      RunValueOfZeros(width - |digits|, radix, digits);
    }
  }

  // ---------- splitting a long name ----------

  /** A slash that leaves a nonempty prefix and both halves within their fields. */
  predicate Usable(name: Bytes, i: int) {
    0 < i < |name| && name[i] == SLASH && i <= 155 && |name| - i - 1 <= 100
  }

  datatype Split = Split(prefix: Bytes, name: Bytes)

  /** The last usable slash at or before `i`. */
  function LastUsable(name: Bytes, i: int): (r: Option<nat>)
    requires i < |name|
    ensures r.Some? ==> Usable(name, r.value) && r.value <= i
                        && forall j | r.value < j <= i :: !Usable(name, j)
    ensures r.None? ==> forall j | j <= i :: !Usable(name, j)
    decreases i
  {
    if i <= 0 then None else if Usable(name, i) then Some(i) else LastUsable(name, i - 1)
  }

  function SplitName(name: Bytes): Option<Split> {
    if |name| <= 100 then Some(Split([], name))
    else
      match LastUsable(name, |name| - 1)
      case Some(i) => Some(Split(name[..i], name[i + 1..]))
      case None => None
  }

  /** A split says the whole name and fits its two fields; there is none only when nothing fits. */
  lemma {:induction false} SplitSaysName(name: Bytes)
    ensures SplitName(name).Some? ==>
              var s := SplitName(name).value;
              && |s.prefix| <= 155 && |s.name| <= 100
              && name == (if s.prefix == [] then s.name else s.prefix + [SLASH] + s.name)
    ensures SplitName(name).None? <==> |name| > 100 && forall i :: !Usable(name, i)
  {
    if |name| > 100 && SplitName(name).Some? {
      var i := LastUsable(name, |name| - 1).value;
      assert name[..i] + [SLASH] + name[i + 1..] == name;
    }
  }

  /** `name.lastIndexOf("/", from)`, or -1. */
  method LastSlash(name: Bytes, from: int) returns (i: int)
    requires from < |name|
    ensures -1 <= i && i <= (if from < 0 then -1 else from)
    ensures i >= 0 ==> name[i] == SLASH
    ensures forall j | i < j <= from && 0 <= j :: name[j] != SLASH
  {
    i := from;
    if i < 0 {
      return -1;
    }
    while i >= 0 && name[i] != SLASH
      invariant -1 <= i <= from
      invariant forall j | i < j <= from :: name[j] != SLASH
    {
      i := i - 1;
    }
  }

  method SplitUstarName(name: Bytes) returns (r: Option<Split>)
    ensures r == SplitName(name)
  {
    if |name| <= 100 {
      return Some(Split([], name));
    }
    var i := LastSlash(name, |name| - 1);
    while i > 0
      invariant -1 <= i < |name|
      invariant i >= 0 ==> name[i] == SLASH
      invariant forall j | i < j < |name| && 0 < j :: !Usable(name, j)
    {
      if i <= 155 && |name| - i - 1 <= 100 {
        assert Usable(name, i);
        assert LastUsable(name, |name| - 1) == Some(i);
        return Some(Split(name[..i], name[i + 1..]));
      }
      i := LastSlash(name, i - 1);
    }
    r := None;
  }

  // ---------- the header block ----------

  predicate IsContinuation(b: Byte) {
    0x80 <= b < 0xC0
  }

  /** The longest run of whole characters of `s` that fits `n` bytes, as `Buffer.write` cuts. */
  function Clip(s: Bytes, n: nat): (r: Bytes)
    ensures |r| <= n && r <= s
    ensures |s| <= n ==> r == s
  {
    if |s| <= n then s else s[..ClipPoint(s, n)]
  }

  function ClipPoint(s: Bytes, n: nat): (k: nat)
    requires n < |s|
    ensures k <= n && (k == 0 || !IsContinuation(s[k]))
  {
    if n == 0 || !IsContinuation(s[n]) then n else ClipPoint(s, n - 1)
  }

  datatype Header = Header(name: Bytes, prefix: Bytes, size: nat, mtime: nat, flag: Byte)

  predicate Writable(h: Header) {
    h.size < FIELD_LIMIT && h.mtime < FIELD_LIMIT
  }

  /** Byte `k` of a field that starts with `s` and is NUL beyond it. */
  function FieldByte(s: Bytes, k: nat): Byte {
    if k < |s| then s[k] else NUL
  }

  /** Byte `k` of the block, field by field, with `sum` in the checksum field. */
  function BlockByte(h: Header, sum: Bytes, k: nat): Byte {
    if k < 100 then FieldByte(Clip(h.name, 100), k)
    else if k < 108 then MODE[k - 100]
    else if k < 116 then OWNER[k - 108]
    else if k < 124 then OWNER[k - 116]
    else if k < 136 then FieldByte(Padded(h.size, 8, 11), k - 124)
    else if k < 148 then FieldByte(Padded(h.mtime, 8, 11), k - 136)
    else if k < 156 then FieldByte(sum, k - 148)
    else if k == 156 then h.flag
    else if k < 257 then NUL
    else if k < 263 then MAGIC[k - 257]
    else if k < 265 then VERSION[k - 263]
    else if k < 345 then NUL
    else if k < 500 then FieldByte(Clip(h.prefix, 155), k - 345)
    else NUL
  }

  function Block(h: Header, sum: Bytes): (r: Bytes)
    ensures |r| == 512 && forall k | 0 <= k < 512 :: r[k] == BlockByte(h, sum, k)
  {
    seq(512, k requires 0 <= k < 512 => BlockByte(h, sum, k))
  }

  function Sum(s: Bytes): nat {
    if s == [] then 0 else Sum(s[..|s| - 1]) + s[|s| - 1]
  }

  /** The checksum is taken with its own field blank. */
  function Checksum(h: Header): nat {
    Sum(Block(h, Fill(SPACE, 8)))
  }

  /** The finished block: six octal digits of the checksum, a NUL and a space. */
  function RawHeader(h: Header): (r: Bytes)
    ensures |r| == 512
  {
    Block(h, Padded(Checksum(h), 8, 6) + [NUL, SPACE])
  }

  lemma {:induction false} SumIsBounded(s: Bytes)
    ensures Sum(s) <= 255 * |s|
  {
    if s != [] {
      SumIsBounded(s[..|s| - 1]);
    }
  }

  /** The checksum always fits its six octal digits. */
  lemma {:induction false} ChecksumFits(h: Header)
    ensures Checksum(h) <= 130560
    ensures |Padded(Checksum(h), 8, 6)| == 6
  {
    SumIsBounded(Block(h, Fill(SPACE, 8)));
    assert Power(8, 6) == 262144;
    NumeralFits(Checksum(h), 8, 6);
  }

  function Put(a: Bytes, off: nat, s: Bytes): (r: Bytes)
    requires off + |s| <= |a|
    ensures |r| == |a|
    ensures forall k | 0 <= k < |a| :: r[k] == if off <= k < off + |s| then s[k - off] else a[k]
  {
    a[..off] + s + a[off + |s|..]
  }

  /** `buf.write(s, off)`. */
  method Write(a: array<Byte>, off: nat, s: Bytes)
    requires off + |s| <= a.Length
    modifies a
    ensures a[..] == Put(old(a[..]), off, s)
  {
    for i := 0 to |s|
      invariant forall k | 0 <= k < a.Length :: a[k] == if off <= k < off + i then s[k - off] else old(a[k])
    {
      a[off + i] := s[i];
    }
  }

  /** The writes that fill a block before its checksum is known. */
  function Written(h: Header): (r: Bytes)
    requires Writable(h) && |Padded(h.size, 8, 11)| <= 12 && |Padded(h.mtime, 8, 11)| <= 12
    ensures |r| == 512
  {
    var a := Put(Fill(NUL, 512), 0, Clip(h.name, 100));
    var b := Put(Put(Put(a, 100, MODE), 108, OWNER), 116, OWNER);
    var c := Put(b, 124, Padded(h.size, 8, 11) + [NUL]);
    var d := Put(c, 136, Padded(h.mtime, 8, 11) + [NUL]);
    var e := Put(Put(d, 148, Fill(SPACE, 8)), 156, [h.flag]);
    var f := Put(Put(e, 257, MAGIC), 263, VERSION);
    if h.prefix == [] then f else Put(f, 345, Clip(h.prefix, 155))
  }

  /** However the writes overlap, what they leave is the layout. */
  lemma {:induction false} WrittenIsBlock(h: Header)
    requires Writable(h) && |Padded(h.size, 8, 11)| <= 12 && |Padded(h.mtime, 8, 11)| <= 12
    ensures Written(h) == Block(h, Fill(SPACE, 8))
  {
    hide Padded, Put, Clip, Fill, Block;
    forall k | 0 <= k < 512
      ensures Written(h)[k] == BlockByte(h, Fill(SPACE, 8), k)
    {
    }
  }

  lemma {:induction false} ChecksumGoesIn(h: Header, sum: Bytes)
    requires |sum| == 8
    ensures Put(Block(h, Fill(SPACE, 8)), 148, sum) == Block(h, sum)
  {
    hide Padded, Put, Clip, Block, Fill;
    forall k | 0 <= k < 512
      ensures Put(Block(h, Fill(SPACE, 8)), 148, sum)[k] == BlockByte(h, sum, k)
    {
    }
  }

  method RawTarHeader(h: Header) returns (buf: array<Byte>)
    requires Writable(h)
    ensures fresh(buf) && buf[..] == RawHeader(h)
  {
    hide Put, Padded, Clip, Block;
    FieldNumeralFits(h.size);
    FieldNumeralFits(h.mtime);
    buf := new Byte[512](_ => NUL);
    assert buf[..] == Fill(NUL, 512);
    Write(buf, 0, Clip(h.name, 100));
    Write(buf, 100, MODE);
    Write(buf, 108, OWNER);
    Write(buf, 116, OWNER);
    Write(buf, 124, Padded(h.size, 8, 11) + [NUL]);
    Write(buf, 136, Padded(h.mtime, 8, 11) + [NUL]);
    Write(buf, 148, Fill(SPACE, 8));
    Write(buf, 156, [h.flag]);
    Write(buf, 257, MAGIC);
    Write(buf, 263, VERSION);
    if h.prefix != [] {
      Write(buf, 345, Clip(h.prefix, 155));
    }
    WrittenIsBlock(h);
    assert buf[..] == Block(h, Fill(SPACE, 8));
    var sum: nat := 0;
    for i := 0 to 512
      invariant sum == Sum(buf[..i])
      invariant buf[..] == Block(h, Fill(SPACE, 8))
    {
      assert buf[..i + 1][..i] == buf[..i];
      sum := sum + buf[i];
    }
    assert buf[..512] == buf[..];
    ChecksumFits(h);
    Write(buf, 148, Padded(sum, 8, 6) + [NUL, SPACE]);
    ChecksumGoesIn(h, Padded(sum, 8, 6) + [NUL, SPACE]);
  }

  // ---------- the pax record ----------

  /** The record after its length: a space, the key, the value, a newline. */
  function PaxBody(key: Bytes, value: Bytes): (r: Bytes)
    ensures |r| == |key| + |value| + 3
  {
    [SPACE] + key + [EQUALS] + value + [NEWLINE]
  }

  /** `d` digits are exactly enough to write `n + d`. */
  predicate CountsItself(n: nat, d: nat) {
    |Numeral(n + d, 10)| == d
  }

  /** From `d` up, the first digit count that counts itself. */
  function SelfCounting(n: nat, d: nat): (r: nat)
    requires 1 <= d <= n + 1 && d <= |Numeral(n + d, 10)|
    ensures d <= r && CountsItself(n, r)
    ensures forall k | d <= k < r :: !CountsItself(n, k)
    decreases n + 1 - d
  {
    if CountsItself(n, d) then d
    else
      NumeralMonotone(n + d, n + d + 1);
      assert d <= n by { NumeralIsShort(n + d); }
      SelfCounting(n, d + 1)
  }

  function PaxRecord(key: Bytes, value: Bytes): Bytes {
    var n := |PaxBody(key, value)|;
    Numeral(n + SelfCounting(n, 1), 10) + PaxBody(key, value)
  }

  /** The length a record declares is its own length. */
  lemma {:induction false} PaxRecordCountsItself(key: Bytes, value: Bytes)
    ensures PaxRecord(key, value) == Numeral(|PaxRecord(key, value)|, 10) + PaxBody(key, value)
  {
  }

  method PaxRecordText(key: Bytes, value: Bytes) returns (r: Bytes)
    ensures r == PaxRecord(key, value)
  {
    var body := PaxBody(key, value);
    var n := |body|;
    var digits := 1;
    while !CountsItself(n, digits)
      invariant 1 <= digits <= SelfCounting(n, 1)
      decreases SelfCounting(n, 1) - digits
    {
      digits := digits + 1;
    }
    r := Numeral(n + digits, 10) + body;
  }

  // ---------- reading slices ----------

  function Bound(i: int, n: nat): (r: nat)
    ensures r <= n
  {
    if i < 0 then (if n + i < 0 then 0 else n + i) else if i > n then n else i
  }

  /** `buf.subarray(from, to)`: negative ends count from the back, and both are clamped. */
  function Sub(buf: Bytes, from: int, to: int): Bytes {
    var a := Bound(from, |buf|);
    var b := Bound(to, |buf|);
    if a <= b then buf[a..b] else []
  }

  /** The index of the first `b` at or after `from`, or -1. */
  function IndexOf(s: Bytes, b: Byte, from: nat): (i: int)
    ensures i == -1 || from <= i < |s|
    ensures i >= 0 ==> s[i] == b && forall k | from <= k < i :: s[k] != b
    ensures i < 0 ==> forall k | from <= k < |s| :: s[k] != b
    decreases |s| - from
  {
    if from >= |s| then -1 else if s[from] == b then from else IndexOf(s, b, from + 1)
  }

  lemma {:induction false} IndexOfIs(s: Bytes, b: Byte, i: nat)
    requires i < |s| && s[i] == b && forall k | 0 <= k < i :: s[k] != b
    ensures IndexOf(s, b, 0) == i
  {
  }

  /** The value of the last `path` record from `pos` on, `found` when there is none. */
  function PathFrom(data: Bytes, pos: nat, found: Option<Bytes>): Option<Bytes>
    decreases |data| - pos
  {
    if pos >= |data| then found
    else
      var sp := IndexOf(data, SPACE, pos);
      if sp < 0 then found
      else
        var len := ParseInt(Sub(data, pos, sp), 10).GetOr(0);
        if len <= 0 then found
        else
          var rec := Sub(data, sp + 1, pos + len - 1);
          var eq := IndexOf(rec, EQUALS, 0);
          PathFrom(data, pos + len, if eq > 0 && rec[..eq] == PATH then Some(rec[eq + 1..]) else found)
  }

  method ParsePaxPath(data: Bytes) returns (found: Option<Bytes>)
    ensures found == PathFrom(data, 0, None)
  {
    hide ParseInt, Sub;
    var pos: nat := 0;
    found := None;
    while pos < |data|
      invariant PathFrom(data, pos, found) == PathFrom(data, 0, None)
      decreases |data| - pos
    {
      var sp := IndexOf(data, SPACE, pos);
      if sp < 0 {
        break;
      }
      var len := ParseInt(Sub(data, pos, sp), 10).GetOr(0);
      if len <= 0 {
        break;
      }
      var rec := Sub(data, sp + 1, pos + len - 1);
      var eq := IndexOf(rec, EQUALS, 0);
      if eq > 0 && rec[..eq] == PATH {
        found := Some(rec[eq + 1..]);
      }
      pos := pos + len;
    }
  }

  lemma {:induction false} RecordParts(name: Bytes)
    ensures var data := PaxRecord(PATH, name);
            var d := |Numeral(|data|, 10)|;
            && |data| == d + |name| + 7
            && IndexOf(data, SPACE, 0) == d
            && Sub(data, 0, d) == Padded(|data|, 10, 0)
            && Sub(data, d + 1, |data| - 1) == PATH + [EQUALS] + name
  {
    hide ParseInt, SelfCounting, Numeral, PaxRecord;
    var data := PaxRecord(PATH, name);
    PaxRecordCountsItself(PATH, name);
    var digits := Numeral(|data|, 10);
    var d := |digits|;
    var body := PaxBody(PATH, name);
    assert data == digits + body;
    assert data[d] == body[0] == SPACE;
    IndexOfIs(data, SPACE, d);
    assert data[..d] == digits;
    assert body == [SPACE] + (PATH + [EQUALS] + name) + [NEWLINE];
    assert data[d + 1..|data| - 1] == PATH + [EQUALS] + name;
  }

  lemma {:induction false} KeyAndPath(name: Bytes)
    ensures var rec := PATH + [EQUALS] + name;
            IndexOf(rec, EQUALS, 0) == 4 && rec[..4] == PATH && rec[5..] == name
  {
    var rec := PATH + [EQUALS] + name;
    IndexOfIs(rec, EQUALS, 4);
  }

  /** Reading a written record gives back its path, whatever bytes the path holds. */
  lemma {:induction false} PaxRoundTrip(name: Bytes)
    ensures PathFrom(PaxRecord(PATH, name), 0, None) == Some(name)
  {
    hide ParseInt, Numeral, PaxRecord, Sub, IndexOf, Padded;
    var data := PaxRecord(PATH, name);
    RecordParts(name);
    KeyAndPath(name);
    ParsePadded(|data|, 10, 0);
    assert PathFrom(data, |data|, Some(name)) == Some(name);
  }
}
