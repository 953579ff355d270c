/** UTF-8 as the loop of NewFrame uses it: `utf8.DecodeRune` on the way in, `string(r)` on the way out
    (section 3 of RFC 3629; an invalid byte decodes to U+FFFD of width one). */
module Utf8 {
  type Byte = b: int | 0 <= b < 256
  type Rune = r: int | 0 <= r < 0x110000 && !(0xD800 <= r < 0xE000)

  const RUNE_ERROR: Rune := 0xFFFD

  predicate Tail(b: Byte) { 0x80 <= b < 0xC0 }

  // The second byte of a three or four byte sequence has a narrower range after some first bytes.
  predicate Second(b0: Byte, b1: Byte) {
    (if b0 == 0xE0 then 0xA0 else if b0 == 0xF0 then 0x90 else 0x80) <= b1
    < (if b0 == 0xED then 0xA0 else if b0 == 0xF4 then 0x90 else 0xC0)
  }

  predicate Two(bs: seq<Byte>) { |bs| >= 2 && 0xC2 <= bs[0] < 0xE0 && Tail(bs[1]) }

  predicate Three(bs: seq<Byte>) {
    |bs| >= 3 && 0xE0 <= bs[0] < 0xF0 && Second(bs[0], bs[1]) && Tail(bs[2])
  }

  predicate Four(bs: seq<Byte>) {
    |bs| >= 4 && 0xF0 <= bs[0] < 0xF5 && Second(bs[0], bs[1]) && Tail(bs[2]) && Tail(bs[3])
  }

  // `high << 6 | tail & 0x3F`
  function Pack(high: int, tail: Byte): int { high * 0x40 + (tail - 0x80) }

  /** utf8.DecodeRune: the first rune and how many bytes to skip. */
  function DecodeRune(bs: seq<Byte>): (d: (Rune, nat))
    requires bs != []
    ensures 1 <= d.1 <= |bs|
  {
    if bs[0] < 0x80 then (bs[0], 1)
    else if Two(bs) then (Pack(bs[0] - 0xC0, bs[1]), 2)
    else if Three(bs) then (Pack(Pack(bs[0] - 0xE0, bs[1]), bs[2]), 3)
    else if Four(bs) then (Pack(Pack(Pack(bs[0] - 0xF0, bs[1]), bs[2]), bs[3]), 4)
    else (RUNE_ERROR, 1)
  }

  /** `string(r)`. */
  function EncodeRune(r: Rune): (bs: seq<Byte>)
    ensures 1 <= |bs| <= 4
  {
    if r < 0x80 then [r]
    else if r < 0x800 then [0xC0 + r / 0x40, 0x80 + r % 0x40]
    else if r < 0x10000 then [0xE0 + r / 0x1000, 0x80 + r / 0x40 % 0x40, 0x80 + r % 0x40]
    else [0xF0 + r / 0x40000, 0x80 + r / 0x1000 % 0x40, 0x80 + r / 0x40 % 0x40, 0x80 + r % 0x40]
  }

  function Runes(bs: seq<Byte>): seq<Rune> {
    if bs == [] then [] else
    var (r, size) := DecodeRune(bs);
    [r] + Runes(bs[size..])
  }

  function Encode(rs: seq<Rune>): seq<Byte> {
    if rs == [] then [] else EncodeRune(rs[0]) + Encode(rs[1..])
  }

  predicate Valid(bs: seq<Byte>) {
    bs == [] ||
    ((bs[0] < 0x80 || Two(bs) || Three(bs) || Four(bs)) && Valid(bs[DecodeRune(bs).1..]))
  }

  /** Decoding undoes encoding, whatever follows. */
  lemma DecodeEncoded(r: Rune, rest: seq<Byte>)
    ensures DecodeRune(EncodeRune(r) + rest) == (r, |EncodeRune(r)|)
    ensures var bs := EncodeRune(r) + rest; bs[0] < 0x80 || Two(bs) || Three(bs) || Four(bs)
  {
    var bs := EncodeRune(r) + rest;
    if 0x80 <= r < 0x800 {
      assert Two(bs);
    } else if 0x800 <= r < 0x10000 {
      assert r / 0x40 / 0x40 == r / 0x1000;
      assert Three(bs);
    } else if 0x10000 <= r {
      assert r / 0x40 / 0x40 == r / 0x1000 && r / 0x1000 / 0x40 == r / 0x40000;
      assert Four(bs);
    }
  }

  lemma Unpack(high: int, tail: Byte)
    requires Tail(tail)
    ensures Pack(high, tail) / 0x40 == high && 0x80 + Pack(high, tail) % 0x40 == tail
  {
  }

  /** Encoding undoes decoding of a well-formed sequence. */
  lemma EncodeDecoded(bs: seq<Byte>)
    requires bs != [] && (bs[0] < 0x80 || Two(bs) || Three(bs) || Four(bs))
    ensures EncodeRune(DecodeRune(bs).0) == bs[..DecodeRune(bs).1]
  {
    if bs[0] < 0x80 {
    } else if Two(bs) {
      Unpack(bs[0] - 0xC0, bs[1]);
    } else if Three(bs) {
      var high := Pack(bs[0] - 0xE0, bs[1]);
      Unpack(bs[0] - 0xE0, bs[1]);
      Unpack(high, bs[2]);
      assert Pack(high, bs[2]) / 0x1000 == high / 0x40;
    } else {
      var high := Pack(bs[0] - 0xF0, bs[1]);
      Unpack(bs[0] - 0xF0, bs[1]);
      Unpack(high, bs[2]);
      Unpack(Pack(high, bs[2]), bs[3]);
      assert Pack(Pack(high, bs[2]), bs[3]) / 0x1000 == high;
      assert high / 0x40 == Pack(Pack(high, bs[2]), bs[3]) / 0x40000;
    }
  }

  /** Bytes that begin with an encoded rune decode to it, and any others to U+FFFD, one byte at a time. */
  lemma DecodesFirstRune(bs: seq<Byte>)
    requires bs != []
    ensures var (r, size) := DecodeRune(bs);
      if exists q: Rune :: EncodeRune(q) <= bs then EncodeRune(r) == bs[..size] else (r, size) == (0xFFFD, 1)
    ensures forall q: Rune :: EncodeRune(q) <= bs ==> DecodeRune(bs) == (q, |EncodeRune(q)|)
  {
    if bs[0] < 0x80 || Two(bs) || Three(bs) || Four(bs) {
      EncodeDecoded(bs);
      assert EncodeRune(DecodeRune(bs).0) <= bs;
    }
    forall q: Rune | EncodeRune(q) <= bs
      ensures DecodeRune(bs) == (q, |EncodeRune(q)|) && (bs[0] < 0x80 || Two(bs) || Three(bs) || Four(bs))
    {
      assert bs == EncodeRune(q) + bs[|EncodeRune(q)|..];
      DecodeEncoded(q, bs[|EncodeRune(q)|..]);
    }
  }

  lemma EncodeHead(rs: seq<Rune>)
    requires rs != []
    ensures Encode(rs) == EncodeRune(rs[0]) + Encode(rs[1..])
  {
  }

  lemma {:induction false} EncodeConcat(rs: seq<Rune>, ss: seq<Rune>)
    ensures Encode(rs + ss) == Encode(rs) + Encode(ss)
  {
    if rs == [] {
      assert rs + ss == ss;
    } else {
      EncodeHead(rs);
      EncodeHead(rs + ss);
      hide Encode, EncodeRune;
      assert (rs + ss)[1..] == rs[1..] + ss && (rs + ss)[0] == rs[0];
      EncodeConcat(rs[1..], ss);
      Associative(EncodeRune(rs[0]), Encode(rs[1..]), Encode(ss));
    }
  }

  lemma HeadTail<T>(s: seq<T>)
    requires s != []
    ensures s == [s[0]] + s[1..]
  {
  }

  lemma Associative<T>(a: seq<T>, b: seq<T>, c: seq<T>)
    ensures a + (b + c) == a + b + c
  {
  }

  /** Re-encoding what was decoded gives the input back exactly when the input was valid. */
  lemma {:induction false} ReencodesIffValid(bs: seq<Byte>)
    ensures |Encode(Runes(bs))| >= |bs|
    ensures Valid(bs) <==> Encode(Runes(bs)) == bs
  {
    if bs != [] {
      var (r, size) := DecodeRune(bs);
      ReencodesIffValid(bs[size..]);
      assert Runes(bs)[1..] == Runes(bs[size..]);
      if bs[0] < 0x80 || Two(bs) || Three(bs) || Four(bs) {
        EncodeDecoded(bs);
        assert bs == bs[..size] + bs[size..];
      } else {
        assert |Encode(Runes(bs))| > |bs|;
      }
    }
  }

  /** Decoding an encoded rune sequence gives it back, whatever bytes follow. */
  lemma {:induction false} RunesOfEncoded(rs: seq<Rune>, rest: seq<Byte>)
    ensures Runes(Encode(rs) + rest) == rs + Runes(rest)
  {
    if rs == [] {
      assert Encode(rs) == [];
      hide *;
      assert [] + rest == rest && [] + Runes(rest) == Runes(rest);
    } else {
      hide *;
      EncodeHead(rs);
      Associative(EncodeRune(rs[0]), Encode(rs[1..]), rest);
      RunesAfterRune(rs[0], Encode(rs[1..]) + rest);
      RunesOfEncoded(rs[1..], rest);
      Associative([rs[0]], rs[1..], Runes(rest));
      HeadTail(rs);
    }
  }

  lemma RunesAfterRune(r: Rune, tail: seq<Byte>)
    ensures Runes(EncodeRune(r) + tail) == [r] + Runes(tail)
  {
    DecodeEncoded(r, tail);
    hide DecodeRune, EncodeRune;
    assert (EncodeRune(r) + tail)[|EncodeRune(r)|..] == tail;
  }

  // What follows an ASCII byte does not change how the bytes before it decode.
  lemma AsciiStopsDecoding(bs: seq<Byte>, b: Byte, rest: seq<Byte>)
    requires b < 0x80 && bs != []
    ensures DecodeRune(bs + [b] + rest) == DecodeRune(bs + [b])
    ensures DecodeRune(bs + [b]).1 <= |bs|
  {
    var head, whole := bs + [b], bs + [b] + rest;
    assert whole[..|head|] == head;
    assert forall i :: 0 <= i < |head| ==> whole[i] == head[i];
    assert head[|bs|] == b;
    hide Pack;
  }

  /** An ASCII byte always ends a sequence, so decoding splits after it, valid or not. */
  lemma {:induction false} RunesSplitAfterAscii(bs: seq<Byte>, b: Byte, rest: seq<Byte>)
    requires b < 0x80
    ensures Runes(bs + [b] + rest) == Runes(bs + [b]) + Runes(rest)
    decreases |bs|
  {
    var head, whole := bs + [b], bs + [b] + rest;
    if bs == [] {
      assert whole[1..] == rest && head[1..] == [];
    } else {
      AsciiStopsDecoding(bs, b, rest);
      hide DecodeRune;
      var size := DecodeRune(head).1;
      assert whole[size..] == bs[size..] + [b] + rest && head[size..] == bs[size..] + [b];
      RunesSplitAfterAscii(bs[size..], b, rest);
    }
  }
}
