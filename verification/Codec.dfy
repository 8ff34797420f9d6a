/** The binary frame of a record: printer, parser, and the proof that they undo each other.

    The checksum is a parameter: everything here holds for every function from bytes to 32 bits. */
module Codec {
  import opened Basics
  import opened Records

  type u32 = x: int | 0 <= x < 0x1_0000_0000
  type Checksum = seq<byte> -> u32

  // ----- little-endian integers -----

  function Pow256(w: nat): (p: nat)
    ensures p > 0
  {
    if w == 0 then 1 else 256 * Pow256(w - 1)
  }

  /** The w low bytes of n, least significant first. */
  function PutUint(n: nat, w: nat): (b: seq<byte>)
    ensures |b| == w
  {
    if w == 0 then [] else [n % 256] + PutUint(n / 256, w - 1)
  }

  function Uint(b: seq<byte>): (n: nat)
    ensures n < Pow256(|b|)
  {
    if b == [] then 0 else b[0] + 256 * Uint(b[1..])
  }

  lemma {:induction false} UintPut(n: nat, w: nat)
    requires n < Pow256(w)
    ensures Uint(PutUint(n, w)) == n
  {
    if w > 0 {
      UintPut(n / 256, w - 1);
      assert PutUint(n, w)[1..] == PutUint(n / 256, w - 1);
    }
  }

  lemma {:induction false} PutUintOf(b: seq<byte>)
    ensures PutUint(Uint(b), |b|) == b
  {
    if b != [] {
      PutUintOf(b[1..]);
      assert (b[0] + 256 * Uint(b[1..])) / 256 == Uint(b[1..]);
      assert b == [b[0]] + b[1..];
    }
  }

  /** Byte i counts the powers 256^i: least significant byte first. */
  lemma {:induction false} PutUintByte(n: nat, w: nat, i: nat)
    requires i < w
    ensures PutUint(n, w)[i] == (n / Pow256(i)) % 256
  {
    if i > 0 {
      PutUintByte(n / 256, w - 1, i - 1);
      DivideTwice(n, 256, Pow256(i - 1));
    }
  }

  /** The values of four and eight little-endian bytes, written out. */
  function Le4(b: seq<byte>): int
    requires |b| == 4
  {
    b[0] as int + 0x100 * (b[1] as int) + 0x1_0000 * (b[2] as int) + 0x100_0000 * (b[3] as int)
  }

  function Le8(b: seq<byte>): int
    requires |b| == 8
  {
    b[0] as int + 0x100 * (b[1] as int) + 0x1_0000 * (b[2] as int) + 0x100_0000 * (b[3] as int)
    + 0x1_0000_0000 * (b[4] as int) + 0x100_0000_0000 * (b[5] as int)
    + 0x1_0000_0000_0000 * (b[6] as int) + 0x100_0000_0000_0000 * (b[7] as int)
  }

  lemma UintCons(b: seq<byte>)
    requires b != []
    ensures Uint(b) == b[0] + 256 * Uint(b[1..])
  {
  }

  lemma UintOf4(b: seq<byte>)
    requires |b| == 4
    ensures Uint(b) == Le4(b)
  {
    UintCons(b);
    UintCons(b[1..]);
    UintCons(b[2..]);
    UintCons(b[3..]);
    assert b[1..][1..] == b[2..] && b[2..][1..] == b[3..] && b[3..][1..] == [];
  }

  lemma UintOf8(b: seq<byte>)
    requires |b| == 8
    ensures Uint(b) == Le8(b)
  {
    UintHalf(b);
    UintOf4(b[..4]);
    UintOf4(b[4..]);
    hide Uint;
  }

  lemma UintHalf(b: seq<byte>)
    requires |b| == 8
    ensures Uint(b) == Uint(b[..4]) + 0x1_0000_0000 * Uint(b[4..])
  {
    UintCons(b);
    UintCons(b[1..]);
    UintCons(b[2..]);
    UintCons(b[3..]);
    UintOf4(b[..4]);
    hide Uint;
    assert b[1..][1..] == b[2..] && b[2..][1..] == b[3..] && b[3..][1..] == b[4..];
  }

  lemma Widths()
    ensures Pow256(4) == TWO_32 && Pow256(8) == TWO_64
  {
    assert Pow256(1) == 256;
    assert Pow256(2) == 0x1_0000;
    assert Pow256(3) == 0x100_0000;
    assert Pow256(4) == 0x1_0000_0000;
    assert Pow256(5) == 0x100_0000_0000;
    assert Pow256(6) == 0x1_0000_0000_0000;
    assert Pow256(7) == 0x100_0000_0000_0000;
  }

  /** Reading 64 bits as a two's complement integer. */
  function Signed(n: nat): int {
    if n < TWO_63 then n else n - TWO_64
  }

  // ----- frames -----

  /** Everything of the frame that the checksum covers. */
  function Body(r: Record): (b: seq<byte>)
    ensures |b| == 24 + |r.key| + |r.value|
  {
    PutUint(r.offset, 8) + PutUint(|r.key|, 4) + r.key
    + PutUint(|r.value|, 4) + r.value + PutUint(r.tsNano % TWO_64, 8)
  }

  function Encode(crc: Checksum, r: Record): (b: seq<byte>)
    ensures |b| == 28 + |r.key| + |r.value|
  {
    Body(r) + PutUint(crc(Body(r)), 4)
  }

  datatype Parsed =
    | Frame(rec: Record, size: nat)
    | Eof
    | UnexpectedEof
    | BadCrc(offset: nat)

  function Decode(crc: Checksum, b: seq<byte>): (p: Parsed)
    ensures p.Frame? ==> 28 <= p.size <= |b|
  {
    if b == [] then Eof
    else if |b| < 12 then UnexpectedEof
    else
      var keyLen := Uint(b[8..12]);
      if |b| < 16 + keyLen then UnexpectedEof
      else
        var valLen := Uint(b[12 + keyLen..16 + keyLen]);
        var v := 16 + keyLen + valLen;
        if |b| < v + 12 then UnexpectedEof
        else
          var rec := Record(Uint(b[..8]), b[12..12 + keyLen], b[16 + keyLen..v], Signed(Uint(b[v..v + 8])));
          if Uint(b[v + 8..v + 12]) != crc(Body(rec)) then BadCrc(rec.offset) else Frame(rec, v + 12)
  }

  /** What a successful parse consumed is exactly the print of what it returned. */
  lemma EncodeOfDecode(crc: Checksum, b: seq<byte>)
    requires Decode(crc, b).Frame?
    ensures var p := Decode(crc, b); Fits(p.rec) && b[..p.size] == Encode(crc, p.rec)
  {
    Widths();
    hide PutUint, Uint, Pow256;
    var p := Decode(crc, b);
    var r := p.rec;
    var keyLen, valLen := |r.key|, |r.value|;
    var v := 16 + keyLen + valLen;
    PutUintOf(b[..8]);
    PutUintOf(b[8..12]);
    PutUintOf(b[12 + keyLen..16 + keyLen]);
    PutUintOf(b[v..v + 8]);
    PutUintOf(b[v + 8..v + 12]);
    assert r.tsNano % TWO_64 == Uint(b[v..v + 8]);
    Pieces(b, keyLen, valLen);
  }

  lemma Pieces(b: seq<byte>, keyLen: nat, valLen: nat)
    requires 28 + keyLen + valLen <= |b|
    ensures var v := 16 + keyLen + valLen;
            b[..v + 12] == b[..8] + b[8..12] + b[12..12 + keyLen] + b[12 + keyLen..16 + keyLen]
                           + b[16 + keyLen..v] + b[v..v + 8] + b[v + 8..v + 12]
  {
  }

  lemma ParsedFields(crc: Checksum, b: seq<byte>)
    requires Decode(crc, b).Frame?
    ensures var p := Decode(crc, b);
            var k := |p.rec.key|;
            var v := |p.rec.value|;
            && p.size == 28 + k + v <= |b|
            && p.rec.offset == Uint(b[..8])
            && k == Uint(b[8..12]) && p.rec.key == b[12..12 + k]
            && v == Uint(b[12 + k..16 + k]) && p.rec.value == b[16 + k..16 + k + v]
            && p.rec.tsNano == Signed(Uint(b[16 + k + v..24 + k + v]))
            && crc(Body(p.rec)) == Uint(b[24 + k + v..28 + k + v])
  {
    hide Uint, Body;
  }

  lemma ParsedBody(crc: Checksum, b: seq<byte>)
    requires Decode(crc, b).Frame?
    ensures b[..Decode(crc, b).size - 4] == Body(Decode(crc, b).rec)
  {
    EncodeOfDecode(crc, b);
    hide Decode, Body, PutUint;
    var p := Decode(crc, b);
    assert b[..p.size - 4] == b[..p.size][..p.size - 4];
  }

  /** What the bytes of a parsed frame's numbers are worth. */
  ghost predicate NumbersAre(b: seq<byte>, r: Record, sum: int) {
    var k, v := |r.key|, |r.value|;
    && 28 + k + v <= |b|
    && r.offset == Le8(b[..8])
    && k == Le4(b[8..12])
    && v == Le4(b[12 + k..16 + k])
    && r.tsNano == (var t := Le8(b[16 + k + v..24 + k + v]); if t < TWO_63 then t else t - TWO_64)
    && sum == Le4(b[24 + k + v..28 + k + v])
  }

  lemma ParsedNumbers(b: seq<byte>, r: Record, sum: int)
    requires var k, v := |r.key|, |r.value|;
             && 28 + k + v <= |b|
             && r.offset == Uint(b[..8]) && k == Uint(b[8..12]) && v == Uint(b[12 + k..16 + k])
             && r.tsNano == Signed(Uint(b[16 + k + v..24 + k + v])) && sum == Uint(b[24 + k + v..28 + k + v])
    ensures NumbersAre(b, r, sum)
  {
    hide Uint, Le4, Le8;
    var k, v := |r.key|, |r.value|;
    UintOf8(b[..8]);
    UintOf4(b[8..12]);
    UintOf4(b[12 + k..16 + k]);
    UintOf8(b[16 + k + v..24 + k + v]);
    UintOf4(b[24 + k + v..28 + k + v]);
  }

  /** Where the fields of a parsed record come from: two slices of the bytes, and numbers read least significant byte
      first, the checksum being that of all bytes before it. */
  lemma FieldValues(crc: Checksum, b: seq<byte>)
    requires Decode(crc, b).Frame?
    ensures var p := Decode(crc, b);
            var k, v := |p.rec.key|, |p.rec.value|;
            && p.size == 28 + k + v <= |b|
            && p.rec.key == b[12..12 + k] && p.rec.value == b[16 + k..16 + k + v]
            && NumbersAre(b, p.rec, crc(b[..24 + k + v]))
  {
    ParsedFields(crc, b);
    ParsedBody(crc, b);
    hide Decode, Uint, Body, Signed, NumbersAre;
    var p := Decode(crc, b);
    assert p.size - 4 == 24 + |p.rec.key| + |p.rec.value|;
    assert crc(b[..24 + |p.rec.key| + |p.rec.value|]) == crc(Body(p.rec));
    ParsedNumbers(b, p.rec, crc(Body(p.rec)));
  }

  /** A complete frame whose last four bytes are not the checksum of the others is reported as corrupt, and with
      the offset it carries. */
  lemma WrongSumIsCorrupt(crc: Checksum, r: Record, sum: seq<byte>, rest: seq<byte>)
    requires Fits(r) && |sum| == 4
    ensures Decode(crc, Body(r) + sum + rest) ==
            if Le4(sum) == crc(Body(r)) then Frame(r, |Encode(crc, r)|) else BadCrc(r.offset)
  {
    Widths();
    UintOf4(sum);
    var other: Checksum := x => Uint(sum);
    PutUintOf(sum);
    DecodeOfEncode(other, r, rest);
    assert Encode(other, r) == Body(r) + sum;
    hide PutUint, Uint, Body, Le4;
    OtherSum(crc, other, Body(r) + sum + rest);
  }

  /** The checksum decides only between a frame and a corrupt one. */
  lemma OtherSum(crc: Checksum, other: Checksum, b: seq<byte>)
    requires Decode(other, b).Frame?
    ensures var p := Decode(other, b);
            Decode(crc, b) == if crc(Body(p.rec)) == other(Body(p.rec)) then p else BadCrc(p.rec.offset)
  {
    hide PutUint, Uint, Body;
  }

  /** Where the fields of a frame lie, whatever follows it. */
  lemma FrameLayout(crc: Checksum, r: Record, rest: seq<byte>)
    ensures var b := Encode(crc, r) + rest;
            var k, v := 12 + |r.key|, 16 + |r.key| + |r.value|;
            && |b| >= v + 12
            && b[..8] == PutUint(r.offset, 8)
            && b[8..12] == PutUint(|r.key|, 4)
            && b[12..k] == r.key
            && b[k..k + 4] == PutUint(|r.value|, 4)
            && b[k + 4..v] == r.value
            && b[v..v + 8] == PutUint(r.tsNano % TWO_64, 8)
            && b[v + 8..v + 12] == PutUint(crc(Body(r)), 4)
  {
  }

  lemma DecodeOfEncode(crc: Checksum, r: Record, rest: seq<byte>)
    requires Fits(r)
    ensures Decode(crc, Encode(crc, r) + rest) == Frame(r, |Encode(crc, r)|)
  {
    Widths();
    hide PutUint, Uint, Pow256, Body;
    FrameLayout(crc, r, rest);
    UintPut(r.offset, 8);
    UintPut(|r.key|, 4);
    UintPut(|r.value|, 4);
    UintPut(r.tsNano % TWO_64, 8);
    UintPut(crc(Body(r)), 4);
    assert Signed(r.tsNano % TWO_64) == r.tsNano;
  }

  /** Printing then parsing gives the record back exactly for the records the Go types can hold. */
  lemma RoundTripIff(crc: Checksum, r: Record, rest: seq<byte>)
    ensures Decode(crc, Encode(crc, r) + rest) == Frame(r, |Encode(crc, r)|) <==> Fits(r)
  {
    if Fits(r) {
      DecodeOfEncode(crc, r, rest);
    }
    if Decode(crc, Encode(crc, r) + rest) == Frame(r, |Encode(crc, r)|) {
      EncodeOfDecode(crc, Encode(crc, r) + rest);
    }
  }

  /** A parse that succeeds does not look past the frame it returns. */
  lemma DecodeExtends(crc: Checksum, b: seq<byte>, rest: seq<byte>)
    requires Decode(crc, b).Frame?
    ensures Decode(crc, b + rest) == Decode(crc, b)
  {
    var p := Decode(crc, b);
    EncodeOfDecode(crc, b);
    assert b + rest == Encode(crc, p.rec) + (b[p.size..] + rest);
    DecodeOfEncode(crc, p.rec, b[p.size..] + rest);
  }

  /** A frame cut anywhere inside is reported as cut, never as a record;
      only the empty input is a clean end. */
  lemma DecodeOfTorn(crc: Checksum, r: Record, n: nat)
    requires Fits(r) && n < |Encode(crc, r)|
    ensures Decode(crc, Encode(crc, r)[..n]) == if n == 0 then Eof else UnexpectedEof
  {
    Widths();
    var whole := Encode(crc, r);
    var b := whole[..n];
    assert whole + [] == whole;
    FrameLayout(crc, r, []);
    if n >= 12 {
      assert b[8..12] == whole[8..12];
      UintPut(|r.key|, 4);
      var k := 12 + |r.key|;
      if n >= k + 4 {
        assert b[k..k + 4] == whole[k..k + 4];
        UintPut(|r.value|, 4);
      }
    }
  }

  /** The w bytes of buf from `at` on are those of n, least significant first. */
  ghost predicate LittleEndian(buf: seq<byte>, at: nat, n: nat, w: nat) {
    at + w <= |buf| && forall i :: 0 <= i < w ==> buf[at + i] == (n / Pow256(i)) % 256
  }

  /** The bytes of a frame, one by one: little-endian numbers and the two strings, and at the end the checksum of
      everything before it. */
  ghost predicate IsFrameOf(crc: Checksum, r: Record, buf: seq<byte>) {
    var k, v := |r.key|, |r.value|;
    && |buf| == 28 + k + v
    && LittleEndian(buf, 0, r.offset, 8)
    && LittleEndian(buf, 8, k, 4)
    && buf[12..12 + k] == r.key
    && LittleEndian(buf, 12 + k, v, 4)
    && buf[16 + k..16 + k + v] == r.value
    && LittleEndian(buf, 16 + k + v, r.tsNano % TWO_64, 8)
    && LittleEndian(buf, 24 + k + v, crc(buf[..24 + k + v]), 4)
  }

  lemma FieldBytes(buf: seq<byte>, at: nat, n: nat, w: nat)
    requires at + w <= |buf| && buf[at..at + w] == PutUint(n, w)
    ensures LittleEndian(buf, at, n, w)
  {
    hide PutUint, Pow256;
    forall i | 0 <= i < w
      ensures buf[at + i] == (n / Pow256(i)) % 256
    {
      PutUintByte(n, w, i);
      assert buf[at + i] == buf[at..at + w][i];
    }
  }

  lemma FrameBytes(crc: Checksum, r: Record)
    ensures IsFrameOf(crc, r, Encode(crc, r))
  {
    var buf, k, v := Encode(crc, r), |r.key|, |r.value|;
    FrameLayout(crc, r, []);
    assert buf + [] == buf && buf[..24 + k + v] == Body(r);
    hide Encode, Body, PutUint, Pow256, LittleEndian;
    assert buf[0..0 + 8] == buf[..8];
    FieldBytes(buf, 0, r.offset, 8);
    FieldBytes(buf, 8, k, 4);
    FieldBytes(buf, 12 + k, v, 4);
    FieldBytes(buf, 16 + k + v, r.tsNano % TWO_64, 8);
    FieldBytes(buf, 24 + k + v, crc(Body(r)), 4);
  }

  /** The print of the record, built field by field as the source does. */
  method EncodeRecord(crc: Checksum, rec: Record) returns (buf: seq<byte>)
    ensures buf == Encode(crc, rec) && IsFrameOf(crc, rec, buf)
  {
    FrameBytes(crc, rec);
    hide IsFrameOf;
    buf := PutUint(rec.offset, 8);
    buf := buf + PutUint(|rec.key|, 4);
    buf := buf + rec.key;
    buf := buf + PutUint(|rec.value|, 4);
    buf := buf + rec.value;
    buf := buf + PutUint(rec.tsNano % TWO_64, 8);
    var sum := crc(buf);
    buf := buf + PutUint(sum, 4);
  }

  /** The checksum a frame of this record must carry: that of its print without the last four bytes. */
  method ChecksumOf(crc: Checksum, rec: Record) returns (sum: u32)
    ensures sum == crc(Body(rec))
  {
    var enc := EncodeRecord(crc, rec);
    assert enc[..24 + |rec.key| + |rec.value|] == Body(rec);
    sum := crc(enc[..24 + |rec.key| + |rec.value|]);
  }

  datatype ReadError = NoError | CleanEof | ShortRead

  /** A sequential reader over the bytes of a file. */
  class Reader {
    const data: seq<byte>
    var pos: nat

    ghost predicate Valid()
      reads this
    {
      pos <= |data|
    }

    constructor (data: seq<byte>)
      ensures Valid() && this.data == data && pos == 0
    {
      this.data := data;
      pos := 0;
    }

    /** Fills a buffer of n bytes, or tells a clean end from a short one. */
    method ReadFull(n: nat) returns (buf: seq<byte>, err: ReadError)
      requires Valid()
      modifies this
      ensures Valid()
      ensures old(pos) + n <= |data| ==>
                err == NoError && pos == old(pos) + n && buf == data[old(pos)..pos]
      ensures old(pos) + n > |data| ==>
                err == if old(pos) == |data| then CleanEof else ShortRead
    {
      if pos + n <= |data| {
        buf, err := data[pos..pos + n], NoError;
        pos := pos + n;
      } else {
        buf, err := data[pos..], if pos == |data| then CleanEof else ShortRead;
        pos := |data|;
      }
    }
  }

  /** Parses the next frame, field by field, and recomputes the checksum from the parsed record. */
  method ReadRecord(crc: Checksum, r: Reader) returns (res: Parsed)
    requires r.Valid()
    modifies r
    ensures r.Valid()
    ensures res == Decode(crc, r.data[old(r.pos)..])
    ensures res.Frame? ==> r.pos == old(r.pos) + res.size
    ensures res.Frame? ==>
              var b := r.data[old(r.pos)..];
              var k, v := |res.rec.key|, |res.rec.value|;
              && res.size == 28 + k + v <= |b|
              && res.rec.key == b[12..12 + k] && res.rec.value == b[16 + k..16 + k + v]
              && NumbersAre(b, res.rec, crc(b[..24 + k + v]))
  {
    hide PutUint, Uint, Pow256, Body, IsFrameOf, NumbersAre;
    ghost var b := r.data[r.pos..];
    var header, err := r.ReadFull(12);
    if err == CleanEof {
      return Eof;
    }
    if err != NoError {
      return UnexpectedEof;
    }
    assert header == b[..12];
    assert header[..8] == b[..8] && header[8..12] == b[8..12];
    var offset, keyLen := Uint(header[..8]), Uint(header[8..12]);
    var key, vlBuf;
    key, err := r.ReadFull(keyLen);
    if err != NoError {
      return UnexpectedEof;
    }
    vlBuf, err := r.ReadFull(4);
    if err != NoError {
      return UnexpectedEof;
    }
    assert key == b[12..12 + keyLen] && vlBuf == b[12 + keyLen..16 + keyLen];
    res := ReadValue(crc, r, offset, key, Uint(vlBuf), b);
    if res.Frame? {
      FieldValues(crc, b);
    }
  }

  /** The rest of a frame whose offset, key and value length are read. */
  method ReadValue(crc: Checksum, r: Reader, offset: nat, key: seq<byte>, valLen: nat, ghost b: seq<byte>)
    returns (res: Parsed)
    requires r.Valid() && |r.data| - r.pos == |b| - 16 - |key| && 16 + |key| <= |b| && r.data[r.pos..] == b[16 + |key|..]
    requires offset == Uint(b[..8]) && |key| == Uint(b[8..12]) && key == b[12..12 + |key|]
    requires valLen == Uint(b[12 + |key|..16 + |key|])
    modifies r
    ensures r.Valid() && res == Decode(crc, b)
    ensures res.Frame? ==> r.pos == old(r.pos) + res.size - 16 - |key|
  {
    hide PutUint, Uint, Pow256, Body;
    ghost var rest := r.data[r.pos..];
    var val, err := r.ReadFull(valLen);
    if err != NoError {
      return UnexpectedEof;
    }
    var tsBuf, crcBuf;
    tsBuf, err := r.ReadFull(8);
    if err != NoError {
      return UnexpectedEof;
    }
    crcBuf, err := r.ReadFull(4);
    if err != NoError {
      return UnexpectedEof;
    }
    assert val == rest[..valLen] && tsBuf == rest[valLen..valLen + 8] && crcBuf == rest[valLen + 8..valLen + 12];
    FieldsBehind(b, rest, 16 + |key|, valLen);
    var rec := Record(offset, key, val, Signed(Uint(tsBuf)));
    var want := ChecksumOf(crc, rec);
    if Uint(crcBuf) != want {
      return BadCrc(offset);
    }
    return Frame(rec, 28 + |key| + valLen);
  }

  lemma FieldsBehind(b: seq<byte>, rest: seq<byte>, at: nat, n: nat)
    requires at <= |b| && rest == b[at..] && n + 12 <= |rest|
    ensures rest[..n] == b[at..at + n]
    ensures rest[n..n + 8] == b[at + n..at + n + 8] && rest[n + 8..n + 12] == b[at + n + 8..at + n + 12]
  {
  }
}
