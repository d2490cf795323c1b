/**
 `btoa` and `atob` of the HTML Standard, and the unpadded URL-safe form of
 `packages/tekmemo-mcp-server/src/utils/pagination.ts` (section 5 of RFC 4648).

 Three bytes are four symbols of six bits; one or two bytes at the end are two or
 three symbols and padding.  The round trip goes by groups: a text of symbols is
 turned into sextets, these into bytes, and the replacements of the URL-safe
 form undo each other symbol by symbol, whatever padding was cut off and put
 back.
 */
module Base64 {
  import opened Optional
  import opened Text
  import opened Utf8

  type Sextet = x: int | 0 <= x < 0x40

  const PAD: Unit := 61

  /** The standard alphabet: A-Z a-z 0-9 + / */
  function ToSymbol(x: Sextet): Unit {
    if x < 26 then 65 + x else if x < 52 then 71 + x else if x < 62 then x - 4 else if x == 62 then 43 else 47
  }

  function FromSymbol(u: Unit): Option<Sextet> {
    if 65 <= u <= 90 then Some(u - 65)
    else if 97 <= u <= 122 then Some(u - 71)
    else if 48 <= u <= 57 then Some(u + 4)
    else if u == 43 then Some(62)
    else if u == 47 then Some(63)
    else None
  }

  // The four sextets of three bytes, and the three bytes of four sextets.

  function S0(a: Byte): Sextet { a / 4 }
  function S1(a: Byte, b: Byte): Sextet { a % 4 * 16 + b / 16 }
  function S2(b: Byte, c: Byte): Sextet { b % 16 * 4 + c / 64 }
  function S3(c: Byte): Sextet { c % 64 }

  function B0(w: Sextet, x: Sextet): Byte { (w as int) * 4 + x / 16 }
  function B1(x: Sextet, y: Sextet): Byte { (x as int) % 16 * 16 + y / 4 }
  function B2(y: Sextet, z: Sextet): Byte { (y as int) % 4 * 64 + z }

  lemma GroupRoundTrip(a: Byte, b: Byte, c: Byte)
    ensures B0(S0(a), S1(a, b)) == a
    ensures B1(S1(a, b), S2(b, c)) == b
    ensures B2(S2(b, c), S3(c)) == c
  {
  }

  function Btoa(bs: seq<Byte>): Text {
    if bs == [] then []
    else if |bs| == 1 then [ToSymbol(S0(bs[0])), ToSymbol(S1(bs[0], 0)), PAD, PAD]
    else if |bs| == 2 then [ToSymbol(S0(bs[0])), ToSymbol(S1(bs[0], bs[1])), ToSymbol(S2(bs[1], 0)), PAD]
    else
      [ToSymbol(S0(bs[0])), ToSymbol(S1(bs[0], bs[1])), ToSymbol(S2(bs[1], bs[2])), ToSymbol(S3(bs[2]))]
      + Btoa(bs[3..])
  }

  // -------------------------------------------------------------------- atob

  predicate IsAsciiSpace(u: Unit) {
    u == 0x09 || u == 0x0A || u == 0x0C || u == 0x0D || u == 0x20
  }

  function DropSpaces(t: Text): Text {
    if t == [] then [] else (if IsAsciiSpace(t[0]) then [] else [t[0]]) + DropSpaces(t[1..])
  }

  /** At a length divisible by four, up to two padding symbols are dropped. */
  function DropPadding(t: Text): Text {
    if |t| > 0 && |t| % 4 == 0 && t[|t| - 1] == PAD then
      if t[|t| - 2] == PAD then t[..|t| - 2] else t[..|t| - 1]
    else t
  }

  function Sextets(t: Text): Option<seq<Sextet>> {
    if t == [] then Some([])
    else
      match (FromSymbol(t[0]), Sextets(t[1..]))
      case (Some(x), Some(xs)) => Some([x] + xs)
      case _ => None
  }

  /** Whole bytes of the bit string; what is left at the end is discarded. */
  function Bytes(xs: seq<Sextet>): seq<Byte>
    requires |xs| % 4 != 1
  {
    if xs == [] then []
    else if |xs| == 2 then [B0(xs[0], xs[1])]
    else if |xs| == 3 then [B0(xs[0], xs[1]), B1(xs[1], xs[2])]
    else [B0(xs[0], xs[1]), B1(xs[1], xs[2]), B2(xs[2], xs[3])] + Bytes(xs[4..])
  }

  function Atob(t: Text): Option<seq<Byte>> {
    var data := DropPadding(DropSpaces(t));
    match Sextets(data)
    case Some(xs) => if |xs| % 4 == 1 then None else Some(Bytes(xs))
    case None => None
  }

  // ----------------------------------------------------------- URL-safe form

  function Replace(t: Text, what: Unit, with: Text): Text {
    if t == [] then [] else (if t[0] == what then with else [t[0]]) + Replace(t[1..], what, with)
  }

  function EncodeBytes(bs: seq<Byte>): Text {
    Replace(Replace(Replace(Btoa(bs), 43, [45]), 47, [95]), PAD, [])
  }

  /** `padEnd` with the padding symbol. */
  function PadEnd(t: Text, n: nat): Text {
    if |t| < n then t + seq(n - |t|, _ => PAD) else t
  }

  function DecodeBytes(t: Text): Option<seq<Byte>> {
    Atob(PadEnd(Replace(Replace(t, 45, [43]), 95, [47]), (|t| + 3) / 4 * 4))
  }

  // -------------------------------------------------------------- round trip

  function UrlSymbol(x: Sextet): Unit {
    if x == 62 then 45 else if x == 63 then 95 else ToSymbol(x)
  }

  /** The bit string of the bytes cut into sextets, filled up with zero bits. */
  function Split(bs: seq<Byte>): (xs: seq<Sextet>)
    ensures |xs| == (|bs| * 4 + 2) / 3
  {
    if bs == [] then []
    else if |bs| == 1 then [S0(bs[0]), S1(bs[0], 0)]
    else if |bs| == 2 then [S0(bs[0]), S1(bs[0], bs[1]), S2(bs[1], 0)]
    else [S0(bs[0]), S1(bs[0], bs[1]), S2(bs[1], bs[2]), S3(bs[2])] + Split(bs[3..])
  }

  function Symbols(xs: seq<Sextet>): (t: Text)
    ensures |t| == |xs| && forall i :: 0 <= i < |xs| ==> t[i] == ToSymbol(xs[i])
  {
    seq(|xs|, i requires 0 <= i < |xs| => ToSymbol(xs[i]))
  }

  function UrlSymbols(xs: seq<Sextet>): (t: Text)
    ensures |t| == |xs| && forall i :: 0 <= i < |xs| ==> t[i] == UrlSymbol(xs[i])
  {
    seq(|xs|, i requires 0 <= i < |xs| => UrlSymbol(xs[i]))
  }

  lemma {:induction false} ReplaceConcat(a: Text, b: Text, what: Unit, with: Text)
    ensures Replace(a + b, what, with) == Replace(a, what, with) + Replace(b, what, with)
  {
    if a == [] {
      assert a + b == b;
    } else {
      assert (a + b)[1..] == a[1..] + b;
      ReplaceConcat(a[1..], b, what, with);
    }
  }

  lemma {:induction false} ReplaceOneForOne(t: Text, what: Unit, other: Unit)
    ensures |Replace(t, what, [other])| == |t|
    ensures forall i :: 0 <= i < |t| ==> Replace(t, what, [other])[i] == if t[i] == what then other else t[i]
  {
    if t != [] { ReplaceOneForOne(t[1..], what, other); }
  }

  lemma {:induction false} ReplaceAbsent(t: Text, what: Unit, with: Text)
    requires forall i :: 0 <= i < |t| ==> t[i] != what
    ensures Replace(t, what, with) == t
  {
    if t != [] { ReplaceAbsent(t[1..], what, with); }
  }

  function PaddingOf(n: nat): Text {
    if n % 3 == 1 then [PAD, PAD] else if n % 3 == 2 then [PAD] else []
  }

  lemma {:induction false} BtoaIsSplit(bs: seq<Byte>)
    ensures Btoa(bs) == Symbols(Split(bs)) + PaddingOf(|bs|)
  {
    hide S0, S1, S2, S3, ToSymbol, Btoa, Split, Symbols, PaddingOf;
    if |bs| >= 3 {
      var w, x, y, z := S0(bs[0]), S1(bs[0], bs[1]), S2(bs[1], bs[2]), S3(bs[2]);
      var rest := bs[3..];
      BtoaIsSplit(rest);
      BtoaStep(bs);
      SamePadding(|rest|);
      SymbolsOfFour(w, x, y, z, Split(rest));
      Associate([ToSymbol(w), ToSymbol(x), ToSymbol(y), ToSymbol(z)], Symbols(Split(rest)), PaddingOf(|rest|));
    } else {
      BtoaShort(bs);
    }
  }

  lemma Associate(a: Text, b: Text, c: Text)
    ensures a + (b + c) == (a + b) + c
  {
  }

  lemma BtoaStep(bs: seq<Byte>)
    requires |bs| >= 3
    ensures var w, x, y, z := S0(bs[0]), S1(bs[0], bs[1]), S2(bs[1], bs[2]), S3(bs[2]);
            && Btoa(bs) == [ToSymbol(w), ToSymbol(x), ToSymbol(y), ToSymbol(z)] + Btoa(bs[3..])
            && Split(bs) == [w, x, y, z] + Split(bs[3..])
  {
    hide S0, S1, S2, S3, ToSymbol, PaddingOf;
  }

  lemma SamePadding(n: nat)
    ensures PaddingOf(n + 3) == PaddingOf(n)
  {
  }

  lemma BtoaShort(bs: seq<Byte>)
    requires |bs| < 3
    ensures Btoa(bs) == Symbols(Split(bs)) + PaddingOf(|bs|)
  {
    hide *;
    ShortPadding();
    SymbolsOf(Split(bs));
    BtoaOfShort(bs);
  }

  lemma BtoaOfShort(bs: seq<Byte>)
    requires |bs| < 3
    ensures |bs| == 0 ==> Btoa(bs) == [] && Split(bs) == []
    ensures |bs| == 1 ==>
              var xs := [S0(bs[0]), S1(bs[0], 0)];
              Split(bs) == xs && Btoa(bs) == [ToSymbol(xs[0]), ToSymbol(xs[1]), PAD, PAD]
    ensures |bs| == 2 ==>
              var xs := [S0(bs[0]), S1(bs[0], bs[1]), S2(bs[1], 0)];
              Split(bs) == xs && Btoa(bs) == [ToSymbol(xs[0]), ToSymbol(xs[1]), ToSymbol(xs[2]), PAD]
  {
    hide S0, S1, S2, ToSymbol;
  }

  lemma ShortPadding()
    ensures PaddingOf(0) == [] && PaddingOf(1) == [PAD, PAD] && PaddingOf(2) == [PAD]
  {
  }

  lemma SymbolsOf(xs: seq<Sextet>)
    ensures |xs| == 0 ==> Symbols(xs) == []
    ensures |xs| == 2 ==> Symbols(xs) == [ToSymbol(xs[0]), ToSymbol(xs[1])]
    ensures |xs| == 3 ==> Symbols(xs) == [ToSymbol(xs[0]), ToSymbol(xs[1]), ToSymbol(xs[2])]
  {
    hide ToSymbol;
  }

  lemma SymbolsOfFour(w: Sextet, x: Sextet, y: Sextet, z: Sextet, rest: seq<Sextet>)
    ensures Symbols([w, x, y, z] + rest) == [ToSymbol(w), ToSymbol(x), ToSymbol(y), ToSymbol(z)] + Symbols(rest)
  {
    hide ToSymbol;
  }

  lemma BytesOfFour(w: Sextet, x: Sextet, y: Sextet, z: Sextet, rest: seq<Sextet>)
    requires |rest| % 4 != 1
    ensures Bytes([w, x, y, z] + rest) == [B0(w, x), B1(x, y), B2(y, z)] + Bytes(rest)
  {
    hide B0, B1, B2;
    var xs := [w, x, y, z] + rest;
    assert |xs| >= 4 && xs[4..] == rest;
    assert xs[0] == w && xs[1] == x && xs[2] == y && xs[3] == z;
  }

  lemma UrlOfSymbol(x: Sextet)
    ensures var u := ToSymbol(x);
            && u != PAD && !IsAsciiSpace(u)
            && UrlSymbol(x) == (if u == 43 then 45 else if u == 47 then 95 else u)
            && u == (if UrlSymbol(x) == 45 then 43 else if UrlSymbol(x) == 95 then 47 else UrlSymbol(x))
            && UrlSymbol(x) != PAD
  {
  }

  lemma ToUrl(xs: seq<Sextet>, pad: Text)
    requires forall i :: 0 <= i < |pad| ==> pad[i] == PAD
    ensures Replace(Replace(Symbols(xs) + pad, 43, [45]), 47, [95]) == UrlSymbols(xs) + pad
  {
    var t := Symbols(xs) + pad;
    var t1 := Replace(t, 43, [45]);
    ReplaceOneForOne(t, 43, 45);
    ReplaceOneForOne(t1, 47, 95);
    var t2 := Replace(t1, 47, [95]);
    forall i | 0 <= i < |t|
      ensures t2[i] == (UrlSymbols(xs) + pad)[i]
    {
      if i < |xs| { UrlOfSymbol(xs[i]); }
    }
  }

  lemma FromUrl(xs: seq<Sextet>)
    ensures Replace(Replace(UrlSymbols(xs), 45, [43]), 95, [47]) == Symbols(xs)
  {
    var t := UrlSymbols(xs);
    var t1 := Replace(t, 45, [43]);
    ReplaceOneForOne(t, 45, 43);
    ReplaceOneForOne(t1, 95, 47);
    var t2 := Replace(t1, 95, [47]);
    forall i | 0 <= i < |t|
      ensures t2[i] == Symbols(xs)[i]
    {
      UrlOfSymbol(xs[i]);
    }
  }

  lemma {:induction false} PadsVanish(pad: Text)
    requires forall i :: 0 <= i < |pad| ==> pad[i] == PAD
    ensures Replace(pad, PAD, []) == []
  {
    if pad != [] { PadsVanish(pad[1..]); }
  }

  // ----------------------------------------------------------- what is encoded

  /** Table 2 of RFC 4648. */
  const LETTERS := "ABCDEFGHIJKLMNOPQRSTUVWXYZ"
  const SMALL_LETTERS := "abcdefghijklmnopqrstuvwxyz"
  const DIGITS := "0123456789"

  lemma SymbolSpelled(x: Sextet)
    ensures x < 26 ==> UrlSymbol(x) == LETTERS[x] as int
    ensures 26 <= x < 52 ==> UrlSymbol(x) == SMALL_LETTERS[x - 26] as int
    ensures 52 <= x < 62 ==> UrlSymbol(x) == DIGITS[x - 52] as int
    ensures (x == 62 ==> UrlSymbol(x) == '-' as int) && (x == 63 ==> UrlSymbol(x) == '_' as int)
  {
  }

  function ByteAt(bs: seq<Byte>, i: nat): Byte {
    if i < |bs| then bs[i] else 0
  }

  /** The six bits from bit `6 * k` on of the bytes, filled up with zero bits. */
  function BitsAt(bs: seq<Byte>, k: nat): nat {
    var first, skipped := 6 * k / 8, 6 * k % 8;
    var two: nat := ByteAt(bs, first) as int * 0x100 + ByteAt(bs, first + 1);
    (if skipped == 0 then two / 0x400 else if skipped == 2 then two / 0x100 else if skipped == 4 then two / 0x40 else two / 0x10) % 0x40
  }

  lemma {:induction false} SplitIsBits(bs: seq<Byte>, k: nat)
    requires k < |Split(bs)|
    ensures Split(bs)[k] == BitsAt(bs, k)
  {
    hide BitsAt, S0, S1, S2, S3;
    if k >= 4 {
      SplitIsBits(bs[3..], k - 4);
      LaterBits(bs, k);
    } else {
      FirstBits(bs);
    }
  }

  lemma LaterBits(bs: seq<Byte>, k: nat)
    requires k >= 4 && |bs| >= 3
    ensures BitsAt(bs[3..], k - 4) == BitsAt(bs, k)
  {
    Group(k);
    var first := 6 * (k - 4) / 8;
    assert ByteAt(bs[3..], first) == ByteAt(bs, first + 3) && ByteAt(bs[3..], first + 1) == ByteAt(bs, first + 4);
  }

  lemma Group(k: nat)
    requires k >= 4
    ensures 6 * k / 8 == 6 * (k - 4) / 8 + 3 && 6 * k % 8 == 6 * (k - 4) % 8
  {
  }

  lemma FirstBits(bs: seq<Byte>)
    ensures BitsAt(bs, 0) == S0(ByteAt(bs, 0)) && BitsAt(bs, 1) == S1(ByteAt(bs, 0), ByteAt(bs, 1))
    ensures BitsAt(bs, 2) == S2(ByteAt(bs, 1), ByteAt(bs, 2)) && BitsAt(bs, 3) == S3(ByteAt(bs, 2))
  {
    hide ByteAt, S0, S1, S2, S3;
    HighSix(ByteAt(bs, 0), ByteAt(bs, 1));
    LowTwo(ByteAt(bs, 0), ByteAt(bs, 1));
    LowFour(ByteAt(bs, 1), ByteAt(bs, 2));
    LowSix(ByteAt(bs, 2), ByteAt(bs, 3));
    assert 6 * 1 / 8 == 0 && 6 * 1 % 8 == 6 && 6 * 2 / 8 == 1 && 6 * 2 % 8 == 4 && 6 * 3 / 8 == 2 && 6 * 3 % 8 == 2;
  }

  lemma HighSix(a: Byte, b: Byte)
    ensures (a as int * 0x100 + b) / 0x400 % 0x40 == S0(a)
  {
    var q, r := a as int / 4, a as int % 4;
    assert a as int * 0x100 + b == 0x400 * q + (0x100 * r + b);
  }

  lemma LowTwo(a: Byte, b: Byte)
    ensures (a as int * 0x100 + b) / 0x10 % 0x40 == S1(a, b)
  {
    var q, r, s := a as int / 4, a as int % 4, b as int / 16;
    assert (a as int * 0x100 + b) / 0x10 == 0x40 * q + (0x10 * r + s);
  }

  lemma LowFour(a: Byte, b: Byte)
    ensures (a as int * 0x100 + b) / 0x40 % 0x40 == S2(a, b)
  {
    var q, r, s := a as int / 16, a as int % 16, b as int / 64;
    assert (a as int * 0x100 + b) / 0x40 == 0x40 * q + (4 * r + s);
  }

  lemma LowSix(a: Byte, b: Byte)
    ensures (a as int * 0x100 + b) / 0x100 % 0x40 == S3(a)
  {
    assert (a as int * 0x100 + b) / 0x100 == a as int;
  }

  /** Symbol `k` of what is encoded stands for the bits `6 * k` to `6 * k + 5`; there are as many as the bits need. */
  lemma EncodedAt(bs: seq<Byte>, k: nat)
    ensures |EncodeBytes(bs)| == (8 * |bs| + 5) / 6
    ensures k < |EncodeBytes(bs)| ==> BitsAt(bs, k) < 0x40 && EncodeBytes(bs)[k] == UrlSymbol(BitsAt(bs, k))
  {
    EncodeBytesIsSplit(bs);
    hide EncodeBytes, Split, BitsAt, UrlSymbol;
    if k < |Split(bs)| { SplitIsBits(bs, k); }
  }

  /** The encoder writes one URL-safe symbol per sextet and no padding. */
  lemma EncodeBytesIsSplit(bs: seq<Byte>)
    ensures EncodeBytes(bs) == UrlSymbols(Split(bs))
  {
    var xs, pad := Split(bs), PaddingOf(|bs|);
    BtoaIsSplit(bs);
    ToUrl(xs, pad);
    ReplaceConcat(UrlSymbols(xs), pad, PAD, []);
    forall i | 0 <= i < |xs|
      ensures UrlSymbols(xs)[i] != PAD
    {
      UrlOfSymbol(xs[i]);
    }
    ReplaceAbsent(UrlSymbols(xs), PAD, []);
    PadsVanish(pad);
  }

  /** The number of sextets, never one more than a multiple of four. */
  lemma SextetCount(n: nat)
    ensures var m := (n * 4 + 2) / 3; m % 4 != 1 && m == n / 3 * 4 + (if n % 3 == 0 then 0 else n % 3 + 1)
    ensures var m := (n * 4 + 2) / 3; (m + 3) / 4 * 4 - m == if n % 3 == 0 then 0 else 3 - n % 3
  {
    var q, r := n / 3, n % 3;
    assert n * 4 + 2 == 3 * (q * 4) + (r * 4 + 2);
  }

  lemma OneByte(a: Byte)
    ensures Split([a]) == [S0(a), S1(a, 0)] && Bytes([S0(a), S1(a, 0)]) == [a]
  {
    FirstByte(a, 0);
  }

  lemma FirstByte(a: Byte, b: Byte)
    ensures B0(S0(a), S1(a, b)) == a
  {
  }

  lemma TwoBytes(a: Byte, b: Byte)
    ensures Split([a, b]) == [S0(a), S1(a, b), S2(b, 0)] && Bytes([S0(a), S1(a, b), S2(b, 0)]) == [a, b]
  {
    GroupRoundTrip(a, b, 0);
  }

  lemma SplitThenBytesShort(bs: seq<Byte>)
    requires |bs| <= 2
    ensures |Split(bs)| % 4 != 1 && Bytes(Split(bs)) == bs
  {
    if |bs| == 1 {
      OneByte(bs[0]);
      assert bs == [bs[0]];
    } else if |bs| == 2 {
      TwoBytes(bs[0], bs[1]);
      assert bs == [bs[0], bs[1]];
    }
  }

  lemma {:induction false} SplitThenBytes(bs: seq<Byte>)
    ensures |Split(bs)| % 4 != 1 && Bytes(Split(bs)) == bs
  {
    if |bs| <= 2 {
      SplitThenBytesShort(bs);
    } else {
      var w, x, y, z, rest := S0(bs[0]), S1(bs[0], bs[1]), S2(bs[1], bs[2]), S3(bs[2]), Split(bs[3..]);
      SplitThenBytes(bs[3..]);
      BytesOfFour(w, x, y, z, rest);
      GroupRoundTrip(bs[0], bs[1], bs[2]);
      assert Split(bs) == [w, x, y, z] + rest;
      assert [bs[0], bs[1], bs[2]] + bs[3..] == bs;
    }
  }

  lemma {:induction false} SextetsOfSymbols(xs: seq<Sextet>)
    ensures Sextets(Symbols(xs)) == Some(xs)
  {
    if xs != [] {
      SextetsOfSymbols(xs[1..]);
      assert Symbols(xs)[1..] == Symbols(xs[1..]);
      assert [xs[0]] + xs[1..] == xs;
    }
  }

  lemma {:induction false} DropSpacesAbsent(t: Text)
    requires forall i :: 0 <= i < |t| ==> !IsAsciiSpace(t[i])
    ensures DropSpaces(t) == t
  {
    if t != [] { DropSpacesAbsent(t[1..]); }
  }

  lemma DropExactPadding(t: Text, padded: Text, pads: nat)
    requires pads <= 2 && |padded| == |t| + pads && |padded| % 4 == 0 && padded[..|t|] == t
    requires forall i :: 0 <= i < |t| ==> t[i] != PAD
    requires forall i :: |t| <= i < |padded| ==> padded[i] == PAD
    ensures DropPadding(padded) == t
  {
    assert |t| > 0 ==> padded[|t| - 1] == t[|t| - 1];
  }

  lemma PaddedShape(xs: seq<Sextet>, n: nat)
    requires |xs| == (n * 4 + 2) / 3
    ensures var t := Symbols(xs); var padded := PadEnd(t, (|t| + 3) / 4 * 4);
            && |padded| % 4 == 0 && |t| <= |padded| <= |t| + 2 && padded[..|t|] == t
            && (forall i :: |t| <= i < |padded| ==> padded[i] == PAD)
  {
    SextetCount(n);
  }

  lemma AtobOfPadded(xs: seq<Sextet>, n: nat)
    requires |xs| == (n * 4 + 2) / 3 && |xs| % 4 != 1
    ensures Atob(PadEnd(Symbols(xs), (|xs| + 3) / 4 * 4)) == Some(Bytes(xs))
  {
    var t := Symbols(xs);
    var padded := PadEnd(t, (|t| + 3) / 4 * 4);
    PaddedShape(xs, n);
    forall i | 0 <= i < |padded|
      ensures !IsAsciiSpace(padded[i]) && (i < |t| ==> t[i] != PAD)
    {
      if i < |t| { UrlOfSymbol(xs[i]); assert padded[i] == t[i]; }
    }
    DropSpacesAbsent(padded);
    DropExactPadding(t, padded, |padded| - |t|);
    SextetsOfSymbols(xs);
    SextetCount(n);
  }

  /** The re-padding arithmetic restores what the encoder removed: every byte sequence survives. */
  lemma BytesRoundTrip(bs: seq<Byte>)
    ensures DecodeBytes(EncodeBytes(bs)) == Some(bs)
    ensures |EncodeBytes(bs)| == (|bs| * 4 + 2) / 3
  {
    hide Atob, EncodeBytes, Split, Bytes;
    var xs := Split(bs);
    EncodeBytesIsSplit(bs);
    FromUrl(xs);
    AtobOfPadded(xs, |bs|);
    SplitThenBytes(bs);
  }
}
