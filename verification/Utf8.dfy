/**
 UTF-8 of UTF-16 text: `TextEncoder` and `Buffer.byteLength`, which write an
 unpaired surrogate as U+FFFD, and the `TextDecoder` of the Encoding Standard,
 which replaces every maximal ill-formed part of its input by U+FFFD.
 */
module Utf8 {
  import opened Text

  type Byte = b: int | 0 <= b < 0x100

  const REPLACEMENT: Unit := 0xFFFD

  /** The text after its first character (a surrogate pair or one unit). */
  function Step(t: Text): nat
    requires t != []
  {
    if StartsWithPair(t) then 2 else 1
  }

  /** The code point of a surrogate pair. */
  function PairValue(h: Unit, l: Unit): (v: nat)
    requires IsHigh(h) && IsLow(l)
    ensures 0x1_0000 <= v < 0x11_0000
    ensures FromCodePoint(v) == [h, l]
  {
    (h as int - 0xD800) * 0x400 + (l as int - 0xDC00) + 0x1_0000
  }

  function EncodePair(h: Unit, l: Unit): (bs: seq<Byte>)
    requires IsHigh(h) && IsLow(l)
    ensures |bs| == 4
  {
    var v := PairValue(h, l);
    [0xF0 + v / 0x4_0000, 0x80 + v / 0x1000 % 0x40, 0x80 + v / 0x40 % 0x40, 0x80 + v % 0x40]
  }

  function EncodeUnit(u: Unit): (bs: seq<Byte>)
    ensures |bs| == if u < 0x80 then 1 else if u < 0x800 then 2 else 3
    ensures u < 0x80 ==> bs == [u]
  {
    if IsHigh(u) || IsLow(u) then [0xEF, 0xBF, 0xBD]
    else if u < 0x80 then [u]
    else if u < 0x800 then [0xC0 + u / 0x40, 0x80 + u % 0x40]
    else [0xE0 + u / 0x1000, 0x80 + u / 0x40 % 0x40, 0x80 + u % 0x40]
  }

  /** The bytes of the first character. */
  function EncodeFirst(t: Text): seq<Byte>
    requires t != []
  {
    if StartsWithPair(t) then EncodePair(t[0], t[1]) else EncodeUnit(t[0])
  }

  function Encode(t: Text): seq<Byte> {
    if t == [] then [] else EncodeFirst(t) + Encode(t[Step(t)..])
  }

  function ByteLength(t: Text): nat {
    |Encode(t)|
  }

  // ---------------------------------------------------------------- decoding

  predicate InRange(cp: nat, needed: nat, hi: Byte) {
    && 1 <= needed <= 3
    && 0x80 <= hi <= 0xBF
    && (if needed == 1 then cp * 0x40 + (hi - 0x7F)
        else if needed == 2 then cp * 0x1000 + (hi - 0x7F) * 0x40
        else cp * 0x4_0000 + (hi - 0x7F) * 0x1000) <= 0x11_0000
  }

  function FromCodePoint(cp: nat): Text
    requires cp < 0x11_0000
  {
    if cp < 0x1_0000 then [cp]
    else [0xD800 + (cp - 0x1_0000) / 0x400, 0xDC00 + (cp - 0x1_0000) % 0x400]
  }

  function Decode(bs: seq<Byte>): Text
    decreases |bs|, 1
  {
    if bs == [] then []
    else
      var b := bs[0];
      if b < 0x80 then [b] + Decode(bs[1..])
      else if 0xC2 <= b <= 0xDF then Continue(bs[1..], b - 0xC0, 1, 0x80, 0xBF)
      else if 0xE0 <= b <= 0xEF then
        Continue(bs[1..], b - 0xE0, 2, if b == 0xE0 then 0xA0 else 0x80, if b == 0xED then 0x9F else 0xBF)
      else if 0xF0 <= b <= 0xF4 then
        Continue(bs[1..], b - 0xF0, 3, if b == 0xF0 then 0x90 else 0x80, if b == 0xF4 then 0x8F else 0xBF)
      else [REPLACEMENT] + Decode(bs[1..])
  }

  /** `needed` more bytes are due, the next one between `lo` and `hi`. */
  function Continue(bs: seq<Byte>, cp: nat, needed: nat, lo: Byte, hi: Byte): Text
    requires InRange(cp, needed, hi) && 0x80 <= lo
    decreases |bs|, 2
  {
    if bs == [] then [REPLACEMENT]
    else if lo <= bs[0] <= hi then
      if needed == 1 then FromCodePoint(cp * 0x40 + (bs[0] - 0x80)) + Decode(bs[1..])
      else Continue(bs[1..], cp * 0x40 + (bs[0] - 0x80), needed - 1, 0x80, 0xBF)
    else [REPLACEMENT] + Decode(bs)
  }

  /** The decoder drops a leading byte order mark. */
  function DecodeText(bs: seq<Byte>): Text {
    if |bs| >= 3 && bs[..3] == [0xEF, 0xBB, 0xBF] then Decode(bs[3..]) else Decode(bs)
  }

  // ------------------------------------------------------------- round trips

  /** The text with every unpaired surrogate replaced. */
  function Scrub(t: Text): Text {
    if t == [] then []
    else if StartsWithPair(t) then t[..2] + Scrub(t[2..])
    else [if IsHigh(t[0]) || IsLow(t[0]) then REPLACEMENT else t[0]] + Scrub(t[1..])
  }

  lemma {:induction false} ScrubWellFormed(t: Text)
    requires WellFormed(t)
    ensures Scrub(t) == t
    decreases |t|
  {
    if t != [] { ScrubWellFormed(t[Step(t)..]); }
  }

  lemma DecodeTwo(u: Unit, rest: seq<Byte>)
    requires 0x80 <= u < 0x800
    ensures Decode([0xC0 + u / 0x40, 0x80 + u % 0x40] + rest) == [u] + Decode(rest)
  {
    var bs: seq<Byte> := [0xC0 + u / 0x40, 0x80 + u % 0x40] + rest;
    assert bs[1..] == [0x80 + u % 0x40] + rest;
    assert bs[1..][1..] == rest;
  }

  /** The three bytes of a unit beyond 0x7FF, and their bounds. */
  lemma ThreeParts(u: Unit)
    requires 0x800 <= u && !IsHigh(u) && !IsLow(u)
    ensures var a, b, c := u / 0x1000, u / 0x40 % 0x40, u % 0x40;
            && a * 0x1000 + b * 0x40 + c == u && a < 0x10
            && (a == 0 ==> 0x20 <= b) && (a == 0xD ==> b < 0x20)
  {
    assert u / 0x1000 == u / 0x40 / 0x40;
  }

  lemma DecodeThree(u: Unit, rest: seq<Byte>)
    requires 0x800 <= u && !IsHigh(u) && !IsLow(u)
    ensures Decode([0xE0 + u / 0x1000, 0x80 + u / 0x40 % 0x40, 0x80 + u % 0x40] + rest) == [u] + Decode(rest)
  {
    var b0, b1, b2 := 0xE0 + u / 0x1000, 0x80 + u / 0x40 % 0x40, 0x80 + u % 0x40;
    ThreeParts(u);
    var bs: seq<Byte> := [b0, b1, b2] + rest;
    assert bs[1..] == [b1, b2] + rest;
    assert bs[1..][1..] == [b2] + rest;
    assert bs[1..][1..][1..] == rest;
    var lo: Byte := if b0 == 0xE0 then 0xA0 else 0x80;
    var hi: Byte := if b0 == 0xED then 0x9F else 0xBF;
    assert lo <= b1 <= hi;
    calc {
      Decode(bs);
      Continue([b1, b2] + rest, b0 - 0xE0, 2, lo, hi);
      Continue([b2] + rest, (b0 - 0xE0) * 0x40 + (b1 - 0x80), 1, 0x80, 0xBF);
      FromCodePoint(u) + Decode(rest);
    }
  }

  /** The four bytes of a code point beyond the first plane, and their bounds. */
  lemma FourParts(v: nat)
    requires 0x1_0000 <= v < 0x11_0000
    ensures var b0, b1, b2, b3 := 0xF0 + v / 0x4_0000, 0x80 + v / 0x1000 % 0x40, 0x80 + v / 0x40 % 0x40, 0x80 + v % 0x40;
            && 0xF0 <= b0 <= 0xF4 && 0x80 <= b1 <= 0xBF && 0x80 <= b2 <= 0xBF && 0x80 <= b3 <= 0xBF
            && (b0 == 0xF0 ==> b1 >= 0x90) && (b0 == 0xF4 ==> b1 <= 0x8F)
            && (((b0 - 0xF0) * 0x40 + (b1 - 0x80)) * 0x40 + (b2 - 0x80)) * 0x40 + (b3 - 0x80) == v
  {
    assert v / 0x1000 == v / 0x40 / 0x40 && v / 0x4_0000 == v / 0x1000 / 0x40;
  }

  lemma ReadFour(b0: Byte, b1: Byte, b2: Byte, b3: Byte, rest: seq<Byte>)
    requires 0xF0 <= b0 <= 0xF4 && 0x80 <= b1 <= 0xBF && 0x80 <= b2 <= 0xBF && 0x80 <= b3 <= 0xBF
    requires (b0 == 0xF0 ==> b1 >= 0x90) && (b0 == 0xF4 ==> b1 <= 0x8F)
    ensures var v := (((b0 as int - 0xF0) * 0x40 + (b1 as int - 0x80)) * 0x40 + (b2 as int - 0x80)) * 0x40 + (b3 as int - 0x80);
            0 <= v < 0x11_0000 && Decode([b0, b1, b2, b3] + rest) == FromCodePoint(v) + Decode(rest)
  {
    hide FromCodePoint;
    var bs := [b0, b1, b2, b3] + rest;
    assert bs[1..] == [b1] + ([b2] + ([b3] + rest));
    var lo: Byte := if b0 == 0xF0 then 0x90 else 0x80;
    var hi: Byte := if b0 == 0xF4 then 0x8F else 0xBF;
    var c1 := (b0 as int - 0xF0) * 0x40 + (b1 as int - 0x80);
    ContinueStep(b1, [b2] + ([b3] + rest), b0 - 0xF0, 3, lo, hi);
    ContinueStep(b2, [b3] + rest, c1, 2, 0x80, 0xBF);
    ContinueLast(b3, rest, c1 * 0x40 + (b2 as int - 0x80), 0x80, 0xBF);
  }

  lemma DecodePair(h: Unit, l: Unit, rest: seq<Byte>)
    requires IsHigh(h) && IsLow(l)
    ensures Decode(EncodePair(h, l) + rest) == [h, l] + Decode(rest)
  {
    hide Decode, FromCodePoint;
    var v := PairValue(h, l);
    FourParts(v);
    ReadFour(0xF0 + v / 0x4_0000, 0x80 + v / 0x1000 % 0x40, 0x80 + v / 0x40 % 0x40, 0x80 + v % 0x40, rest);
  }

  lemma DecodeUnit(u: Unit, rest: seq<Byte>)
    ensures Decode(EncodeUnit(u) + rest) == [if IsHigh(u) || IsLow(u) then REPLACEMENT else u] + Decode(rest)
  {
    if IsHigh(u) || IsLow(u) {
      DecodeThree(REPLACEMENT, rest);
    } else if u < 0x80 {
      assert ([u] + rest)[1..] == rest;
    } else if u < 0x800 {
      DecodeTwo(u, rest);
    } else {
      DecodeThree(u, rest);
    }
  }

  lemma ContinueStep(b: Byte, rest: seq<Byte>, cp: nat, needed: nat, lo: Byte, hi: Byte)
    requires needed > 1 && InRange(cp, needed, hi) && 0x80 <= lo <= b <= hi
    ensures InRange(cp * 0x40 + (b - 0x80), needed - 1, 0xBF)
    ensures Continue([b] + rest, cp, needed, lo, hi) == Continue(rest, cp * 0x40 + (b - 0x80), needed - 1, 0x80, 0xBF)
  {
    assert ([b] + rest)[1..] == rest;
  }

  lemma ContinueLast(b: Byte, rest: seq<Byte>, cp: nat, lo: Byte, hi: Byte)
    requires InRange(cp, 1, hi) && 0x80 <= lo <= b <= hi
    ensures Continue([b] + rest, cp, 1, lo, hi) == FromCodePoint(cp * 0x40 + (b - 0x80)) + Decode(rest)
  {
    assert ([b] + rest)[1..] == rest;
  }

  lemma DecodeFirst(t: Text, rest: seq<Byte>)
    requires t != []
    ensures Decode(EncodeFirst(t) + rest) == Scrub(t)[..Step(t)] + Decode(rest)
  {
    hide Decode, EncodePair, EncodeUnit;
    if StartsWithPair(t) {
      DecodePair(t[0], t[1], rest);
      assert [t[0], t[1]] == Scrub(t)[..2];
    } else {
      DecodeUnit(t[0], rest);
    }
  }

  /** Decoding what was encoded gives the text back, unpaired surrogates replaced. */
  lemma {:induction false} DecodeEncode(t: Text)
    ensures Decode(Encode(t)) == Scrub(t)
    decreases |t|
  {
    if t != [] {
      DecodeFirst(t, Encode(t[Step(t)..]));
      DecodeEncode(t[Step(t)..]);
      assert Scrub(t) == Scrub(t)[..Step(t)] + Scrub(t[Step(t)..]);
    }
  }

  /** On well-formed text that does not begin with a byte order mark the codec loses nothing. */
  lemma TextRoundTrip(t: Text)
    requires WellFormed(t) && (t == [] || t[0] < 0x80)
    ensures DecodeText(Encode(t)) == t
  {
    hide EncodeFirst, Decode;
    DecodeEncode(t);
    ScrubWellFormed(t);
    if t != [] { NonEmpty(t); }
  }

  // ------------------------------------------------------------ byte lengths

  lemma FirstOfConcat(a: Text, b: Text)
    requires a != []
    requires b == [] || !(IsHigh(a[|a| - 1]) && IsLow(b[0]))
    ensures Step(a + b) == Step(a) && EncodeFirst(a + b) == EncodeFirst(a)
    ensures (a + b)[Step(a)..] == a[Step(a)..] + b
  {
    hide EncodePair, EncodeUnit;
    assert (a + b)[0] == a[0];
    assert StartsWithPair(a + b) <==> StartsWithPair(a);
  }

  lemma {:induction false} NonEmpty(t: Text)
    requires t != []
    ensures |Encode(t)| > 0 && (t[0] < 0x80 ==> Encode(t)[0] == t[0])
  {
  }

  /** Encoding splits wherever no surrogate pair is split. */
  lemma {:induction false} EncodeConcat(a: Text, b: Text)
    requires a == [] || b == [] || !(IsHigh(a[|a| - 1]) && IsLow(b[0]))
    ensures Encode(a + b) == Encode(a) + Encode(b)
    decreases |a|
  {
    hide EncodeFirst;
    if a == [] {
      assert a + b == b;
    } else {
      FirstOfConcat(a, b);
      var rest := a[Step(a)..];
      assert rest != [] ==> rest[|rest| - 1] == a[|a| - 1];
      EncodeConcat(rest, b);
      calc {
        Encode(a + b);
        EncodeFirst(a) + Encode(rest + b);
        EncodeFirst(a) + (Encode(rest) + Encode(b));
        (EncodeFirst(a) + Encode(rest)) + Encode(b);
        Encode(a) + Encode(b);
      }
    }
  }

  lemma EncodeOne(u: Unit)
    ensures Encode([u]) == EncodeFirst([u])
  {
    assert [u][1..] == [];
  }

  lemma UnitBytes(u: Unit)
    ensures |Encode([u])| == if u < 0x80 then 1 else if u < 0x800 then 2 else 3
  {
    EncodeOne(u);
  }

  lemma PairBytes(h: Unit, l: Unit)
    requires IsHigh(h) && IsLow(l)
    ensures |Encode([h, l])| == 4
  {
    assert [h, l][2..] == [];
  }

  /** The bytes one more unit adds: an unpaired surrogate has three, and completing a pair adds one. */
  lemma {:induction false} ByteLengthSnoc(t: Text, u: Unit)
    ensures ByteLength(t + [u]) ==
            ByteLength(t) + (if t != [] && IsHigh(t[|t| - 1]) && IsLow(u) then 1
                             else if u < 0x80 then 1 else if u < 0x800 then 2 else 3)
  {
    hide Encode, EncodeFirst, EncodeUnit, EncodePair;
    UnitBytes(u);
    if t != [] && IsHigh(t[|t| - 1]) && IsLow(u) {
      var n := |t| - 1;
      var h := t[n];
      assert t == t[..n] + [h] && t + [u] == t[..n] + [h, u];
      EncodeConcat(t[..n], [h]);
      EncodeConcat(t[..n], [h, u]);
      UnitBytes(h);
      PairBytes(h, u);
    } else {
      EncodeConcat(t, [u]);
    }
  }

  /** Longer prefixes have more bytes. */
  lemma {:induction false} PrefixShorter(t: Text, i: nat, j: nat)
    requires i <= j <= |t|
    ensures ByteLength(t[..i]) + (j - i) <= ByteLength(t[..j])
    decreases j
  {
    if i < j {
      PrefixShorter(t, i, j - 1);
      assert t[..j] == t[..j - 1] + [t[j - 1]];
      ByteLengthSnoc(t[..j - 1], t[j - 1]);
    }
  }
}
