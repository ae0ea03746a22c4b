/**
 Variable-length integers, section 16 of RFC 9000: the two top bits of the first
 byte give the width class (1, 2, 4 or 8 bytes), the remaining bits hold the
 value in network byte order.
 */
module Varint {

  type byte = b: int | 0 <= b < 256

  /** The values a varint can hold are those below 2^62. */
  const VARINT_LIMIT: nat := 0x4000_0000_0000_0000

  /** The two-bit width class carried by the first byte. */
  type WidthClass = k: int | 0 <= k < 4

  datatype ParseResult = Parsed(value: nat, size: nat) | Truncated

  /** Number of bytes of a varint of class `k`: `1 << k`. */
  function Width(k: WidthClass): (n: nat)
    ensures n >= 1
  {
    if k == 0 then 1 else if k == 1 then 2 else if k == 2 then 4 else 8
  }

  /** One more than the largest value that fits `n` bytes with the two top bits clear. */
  function Capacity(n: nat): (c: nat)
    requires n >= 1
    ensures c >= 64
  {
    if n == 1 then 64 else 256 * Capacity(n - 1)
  }

  function FromBigEndian(s: seq<byte>): nat {
    if s == [] then 0 else 256 * FromBigEndian(s[..|s| - 1]) + s[|s| - 1]
  }

  function ToBigEndian(v: nat, n: nat): (s: seq<byte>)
    ensures |s| == n
  {
    if n == 0 then [] else ToBigEndian(v / 256, n - 1) + [v % 256]
  }

  /** `v` written in class `k`, whether or not a shorter class would do. */
  function Codeword(v: nat, k: WidthClass): (c: seq<byte>)
    requires v < Capacity(Width(k))
    ensures |c| == Width(k)
  {
    var s := ToBigEndian(v, Width(k));
    FitsTopByte(v, Width(k));
    [s[0] + 64 * k] + s[1..]
  }

  /** The width class the first byte announces. */
  function ClassOf(first: byte): WidthClass {
    first / 64
  }

  /** `quicvarint.Parse`: the value at the front of `b` and the bytes it took. */
  function Parse(b: seq<byte>): ParseResult {
    if b == [] || |b| < Width(ClassOf(b[0])) then Truncated
    else
      var n := Width(ClassOf(b[0]));
      Parsed(FromBigEndian([b[0] % 64] + b[1..n]), n)
  }

  function MinClass(v: nat): WidthClass {
    if v < 64 then 0 else if v < 16384 then 1 else if v < 0x4000_0000 then 2 else 3
  }

  /** `quicvarint.Len`. */
  function Len(v: nat): nat {
    Width(MinClass(v))
  }

  /** `quicvarint.Append` onto an empty buffer: the shortest encoding. It panics on larger values. */
  function Encode(v: nat): (c: seq<byte>)
    requires v < VARINT_LIMIT
    ensures |c| == Len(v)
  {
    Capacities();
    Codeword(v, MinClass(v))
  }

  lemma Capacities()
    ensures Capacity(1) == 64
    ensures Capacity(2) == 16384
    ensures Capacity(4) == 0x4000_0000
    ensures Capacity(8) == VARINT_LIMIT
  {
  }

  lemma {:induction false} FitsTopByte(v: nat, n: nat)
    requires n >= 1 && v < Capacity(n)
    ensures ToBigEndian(v, n)[0] < 64
  {
    if n > 1 {
      FitsTopByte(v / 256, n - 1);
    }
  }

  lemma {:induction false} FromToBigEndian(v: nat, n: nat)
    requires n >= 1 && v < Capacity(n)
    ensures FromBigEndian(ToBigEndian(v, n)) == v
  {
    var s := ToBigEndian(v, n);
    assert s[..n - 1] == ToBigEndian(v / 256, n - 1);
    if n > 1 {
      FromToBigEndian(v / 256, n - 1);
    }
  }

  lemma {:induction false} ToFromBigEndian(s: seq<byte>)
    requires s != [] && s[0] < 64
    ensures FromBigEndian(s) < Capacity(|s|)
    ensures ToBigEndian(FromBigEndian(s), |s|) == s
  {
    var init, last := s[..|s| - 1], s[|s| - 1];
    var v := FromBigEndian(init);
    assert s == init + [last];
    assert FromBigEndian(s) == 256 * v + last;
    assert (256 * v + last) / 256 == v && (256 * v + last) % 256 == last;
    if init != [] {
      ToFromBigEndian(init);
    }
  }

  /** Decoding inverts every encoding, in every width, and leaves the bytes behind it alone. */
  lemma ParseCodeword(v: nat, k: WidthClass, rest: seq<byte>)
    requires v < Capacity(Width(k))
    ensures Parse(Codeword(v, k) + rest) == Parsed(v, Width(k))
    ensures (Codeword(v, k) + rest)[Width(k)..] == rest
  {
    var n := Width(k);
    var s := ToBigEndian(v, n);
    var b := Codeword(v, k) + rest;
    FitsTopByte(v, n);
    assert b[0] == s[0] + 64 * k && ClassOf(b[0]) == k && b[0] % 64 == s[0];
    assert [b[0] % 64] + b[1..n] == s;
    FromToBigEndian(v, n);
  }

  /** Whatever parses is a codeword: the value is below 2^62 and the bytes taken are its encoding. */
  lemma ParseSound(b: seq<byte>)
    requires Parse(b).Parsed?
    ensures 1 <= Parse(b).size <= |b| && Parse(b).size == Width(ClassOf(b[0]))
    ensures Parse(b).value < Capacity(Width(ClassOf(b[0]))) <= VARINT_LIMIT
    ensures b[..Parse(b).size] == Codeword(Parse(b).value, ClassOf(b[0]))
  {
    var k := ClassOf(b[0]);
    var n := Width(k);
    var s := [b[0] % 64] + b[1..n];
    ToFromBigEndian(s);
    Capacities();
    assert ToBigEndian(Parse(b).value, n) == s;
    assert b[..n] == Codeword(Parse(b).value, k);
  }

  /** What `Parse` returns depends on the bytes it takes only. */
  lemma ParseLocal(b: seq<byte>, rest: seq<byte>)
    requires Parse(b).Parsed?
    ensures Parse(b + rest) == Parse(b) == Parse(b[..Parse(b).size])
  {
    ParseSound(b);
    var r := Parse(b);
    var c := b[..r.size];
    ParseCodeword(r.value, ClassOf(b[0]), []);
    assert c + [] == c;
    ParseCodeword(r.value, ClassOf(b[0]), b[r.size..] + rest);
    assert c + (b[r.size..] + rest) == b + rest;
  }

  /** No codeword starts another one, so consecutive varints cannot be read two ways. */
  lemma PrefixFree(v1: nat, k1: WidthClass, v2: nat, k2: WidthClass, rest: seq<byte>)
    requires v1 < Capacity(Width(k1)) && v2 < Capacity(Width(k2))
    requires Codeword(v1, k1) <= Codeword(v2, k2) + rest
    ensures v1 == v2 && k1 == k2
  {
    var c1, b := Codeword(v1, k1), Codeword(v2, k2) + rest;
    ParseCodeword(v1, k1, b[|c1|..]);
    assert c1 + b[|c1|..] == b;
    ParseCodeword(v2, k2, rest);
    FitsTopByte(v1, Width(k1));
    FitsTopByte(v2, Width(k2));
    assert ClassOf(c1[0]) == k1 && ClassOf(b[0]) == k2 && c1[0] == b[0];
  }

  /** A proper prefix of a codeword does not parse. */
  lemma CutCodeword(v: nat, k: WidthClass, cut: nat)
    requires v < Capacity(Width(k)) && cut < Width(k)
    ensures Parse(Codeword(v, k)[..cut]) == Truncated
  {
  }

  /** `Encode` picks the shortest width that can hold the value. */
  lemma EncodeShortest(v: nat, k: WidthClass)
    requires v < Capacity(Width(k))
    ensures v < VARINT_LIMIT && MinClass(v) <= k && Len(v) <= Width(k)
    ensures Len(v) == Width(k) <==> k == MinClass(v)
  {
    Capacities();
  }

  lemma ParseEncode(v: nat, rest: seq<byte>)
    requires v < VARINT_LIMIT
    ensures Parse(Encode(v) + rest) == Parsed(v, Len(v))
    ensures (Encode(v) + rest)[Len(v)..] == rest
  {
    Capacities();
    ParseCodeword(v, MinClass(v), rest);
  }

  // ----- The table of section 16, byte by byte -----

  lemma FromBigEndianAppend(s: seq<byte>, b: byte)
    ensures FromBigEndian(s + [b]) == 256 * FromBigEndian(s) + b
  {
    assert (s + [b])[..|s|] == s;
  }

  /** Four bytes in network order as a number. */
  function Word(b0: nat, b1: nat, b2: nat, b3: nat): nat {
    0x100_0000 * b0 + 0x1_0000 * b1 + 0x100 * b2 + b3
  }

  lemma FourBytes(b0: byte, b1: byte, b2: byte, b3: byte)
    ensures FromBigEndian([b0, b1, b2, b3]) == Word(b0, b1, b2, b3)
    ensures FromBigEndian([b0, b1]) == Word(0, 0, b0, b1) && FromBigEndian([b0]) == b0
  {
    FromBigEndianAppend([], b0);
    FromBigEndianAppend([b0], b1);
    FromBigEndianAppend([b0, b1], b2);
    FromBigEndianAppend([b0, b1, b2], b3);
    assert [] + [b0] == [b0] && [b0] + [b1] == [b0, b1] && [b0, b1] + [b2] == [b0, b1, b2];
    assert [b0, b1, b2] + [b3] == [b0, b1, b2, b3];
  }

  lemma EightBytes(s: seq<byte>)
    requires |s| == 8
    ensures FromBigEndian(s) == 0x1_0000_0000 * Word(s[0], s[1], s[2], s[3]) + Word(s[4], s[5], s[6], s[7])
  {
    FourBytes(s[0], s[1], s[2], s[3]);
    assert s[..4] == [s[0], s[1], s[2], s[3]];
    assert s[..5] == s[..4] + [s[4]] && s[..6] == s[..5] + [s[5]] && s[..7] == s[..6] + [s[6]] && s == s[..7] + [s[7]];
    FromBigEndianAppend(s[..4], s[4]);
    FromBigEndianAppend(s[..5], s[5]);
    FromBigEndianAppend(s[..6], s[6]);
    FromBigEndianAppend(s[..7], s[7]);
  }

  /** What every byte string is as a varint: the two top bits give the length, the rest is the value. */
  lemma ParseTable(b: seq<byte>)
    ensures b == [] ==> Parse(b) == Truncated
    ensures b != [] && b[0] < 0x40 ==> Parse(b) == Parsed(b[0], 1)
    ensures b != [] && 0x40 <= b[0] < 0x80 ==>
              Parse(b) == if |b| < 2 then Truncated else Parsed(Word(0, 0, b[0] - 0x40, b[1]), 2)
    ensures b != [] && 0x80 <= b[0] < 0xC0 ==>
              Parse(b) == if |b| < 4 then Truncated else Parsed(Word(b[0] - 0x80, b[1], b[2], b[3]), 4)
    ensures b != [] && 0xC0 <= b[0] ==>
              Parse(b) == if |b| < 8 then Truncated
                          else Parsed(0x1_0000_0000 * Word(b[0] - 0xC0, b[1], b[2], b[3]) +
                                      Word(b[4], b[5], b[6], b[7]), 8)
  {
    hide FromBigEndian, Word;
    if b != [] && |b| >= Width(ClassOf(b[0])) {
      var first: byte := b[0] % 64;
      if b[0] < 0x40 {
        FourBytes(first, 0, 0, 0);
        assert [first] + b[1..1] == [first];
      } else if b[0] < 0x80 {
        FourBytes(first, b[1], 0, 0);
        assert [first] + b[1..2] == [first, b[1]];
      } else if b[0] < 0xC0 {
        FourBytes(first, b[1], b[2], b[3]);
        assert [first] + b[1..4] == [first, b[1], b[2], b[3]];
      } else {
        EightBytes([first] + b[1..8]);
      }
    }
  }

  /** The four digits of a number below 2^32 in base 256. */
  function Digits(v: nat): (s: seq<byte>)
    requires v < 0x1_0000_0000
    ensures |s| == 4
  {
    [v / 0x100_0000, v / 0x1_0000 % 0x100, v / 0x100 % 0x100, v % 0x100]
  }

  lemma DigitsSum(v: nat)
    requires v < 0x1_0000_0000
    ensures var s := Digits(v); Word(s[0], s[1], s[2], s[3]) == v
  {
    assert v / 0x100 == 0x100 * (v / 0x1_0000) + v / 0x100 % 0x100;
    assert v / 0x1_0000 == 0x100 * (v / 0x100_0000) + v / 0x1_0000 % 0x100;
  }

  /** The bytes of every value as this implementation writes it. */
  lemma EncodeTable(v: nat)
    requires v < VARINT_LIMIT
    ensures v < 0x40 ==> Encode(v) == [v]
    ensures 0x40 <= v < 0x4000 ==> Encode(v) == [0x40 + v / 0x100, v % 0x100]
    ensures 0x4000 <= v < 0x4000_0000 ==> Encode(v) == [0x80 + Digits(v)[0]] + Digits(v)[1..]
    ensures 0x4000_0000 <= v ==>
              var high, low := Digits(v / 0x1_0000_0000), Digits(v % 0x1_0000_0000);
              high[0] < 0x40 && Encode(v) == [0xC0 + high[0]] + high[1..] + low
  {
    if v < 0x40 {
      ParseTable([v]);
      IsEncoding([v], v);
    } else if v < 0x4000 {
      ParseTable([0x40 + v / 0x100, v % 0x100]);
      IsEncoding([0x40 + v / 0x100, v % 0x100], v);
    } else if v < 0x4000_0000 {
      DigitsSum(v);
      var c: seq<byte> := [0x80 + Digits(v)[0]] + Digits(v)[1..];
      ParseTable(c);
      IsEncoding(c, v);
    } else {
      var high, low := Digits(v / 0x1_0000_0000), Digits(v % 0x1_0000_0000);
      DigitsSum(v / 0x1_0000_0000);
      DigitsSum(v % 0x1_0000_0000);
      var c: seq<byte> := [0xC0 + high[0]] + high[1..] + low;
      ParseTable(c);
      IsEncoding(c, v);
    }
  }

  /** Bytes that the table reads as `v`, and that are as many as it takes, are the encoding of `v`. */
  lemma IsEncoding(c: seq<byte>, v: nat)
    requires v < VARINT_LIMIT && |c| == Len(v)
    requires Parse(c) == Parsed(v, |c|)
    ensures Encode(v) == c
  {
    ParseSound(c);
    EncodeShortest(v, ClassOf(c[0]));
    assert c[..|c|] == c;
  }

  /** The sample encodings of appendix A.1 of RFC 9000. */
  lemma Samples()
    ensures Parse([0xc2, 0x19, 0x7c, 0x5e, 0xff, 0x14, 0xe8, 0x8c]) == Parsed(151_288_809_941_952_652, 8)
    ensures Parse([0x9d, 0x7f, 0x3e, 0x7d]) == Parsed(494_878_333, 4)
    ensures Parse([0x7b, 0xbd]) == Parsed(15_293, 2)
    ensures Parse([0x25]) == Parsed(37, 1) && Parse([0x40, 0x25]) == Parsed(37, 2)
  {
    hide Parse;
    ParseTable([0xc2, 0x19, 0x7c, 0x5e, 0xff, 0x14, 0xe8, 0x8c]);
    ParseTable([0x9d, 0x7f, 0x3e, 0x7d]);
    ParseTable([0x7b, 0xbd]);
    ParseTable([0x25]);
    ParseTable([0x40, 0x25]);
  }
}
