/**
 Cursors and pages of `packages/tekmemo-mcp-server/src/utils/pagination.ts`: an
 offset is written into a cursor, which is refused under any other namespace, and
 following the cursors shows the whole list.

 Numbers are exact: the model agrees with the source for safe integers.
 */
module Pagination {
  import opened Arithmetic
  import opened Optional
  import opened Text
  import opened JsonFormat
  import opened JsonRoundTrip
  import opened Lists
  import opened PageWalk
  import Utf8
  import Base64

  datatype Error = LimitNotInteger | LimitTooSmall | LimitTooLarge | BadOffset | CursorTooLong | BadCursor

  // ------------------------------------------------------------------- limit

  /** The limit as passed: absent, an integer, or anything else. */
  datatype Limit = Undefined | Integer(n: int) | Other

  function NormalizeLimit(limit: Limit, defaultLimit: int, maxLimit: int): Result<int, Error> {
    match limit
    case Undefined => Ok(defaultLimit)
    case Other => Err(LimitNotInteger)
    case Integer(n) => if n < 1 then Err(LimitTooSmall) else if n > maxLimit then Err(LimitTooLarge) else Ok(n)
  }

  // ----------------------------------------------------------------- numbers

  function Power10(n: nat): (r: nat)
    ensures r > 0
  {
    if n == 0 then 1 else 10 * Power10(n - 1)
  }

  /** The digits of the text, without what is not a digit. */
  function OnlyDigits(t: Text): (r: Text)
    ensures forall i :: 0 <= i < |r| ==> IsDigit(r[i])
  {
    if t == [] then [] else (if IsDigit(t[0]) then [t[0]] else []) + OnlyDigits(t[1..])
  }

  function Exponent(t: Text): int {
    if |t| > 1 && t[1] == 45 then -(DigitsValue(OnlyDigits(t)) as int) else DigitsValue(OnlyDigits(t))
  }

  /** `digits` times ten to the `exponent`, if that is an integer. */
  function Scaled(digits: nat, exponent: int): Option<nat> {
    if exponent >= 0 then Some(digits * Power10(exponent))
    else if digits % Power10(-exponent) == 0 then Some(digits / Power10(-exponent))
    else None
  }

  function UnsignedValue(t: Text): Option<nat>
    requires UnsignedLength(t) == Some(|t|)
  {
    var i := IntegerPart(t).value;
    var f := FractionPart(t[i..]).value;
    Scaled(DigitsValue(OnlyDigits(t[..i + f])), Exponent(t[i + f..]) - (if f == 0 then 0 else f - 1))
  }

  /** The exact value of a number literal, if it is an integer. */
  function IntegerValue(literal: Text): Option<int>
    requires ValidNumber(literal)
  {
    var minus := literal[0] == 45;
    var magnitude := UnsignedValue(if minus then literal[1..] else literal);
    if magnitude.None? then None
    else
      var value: int := if minus then -(magnitude.value as int) else magnitude.value;
      Some(value)
  }

  lemma {:induction false} AllDigits(t: Text)
    requires forall i :: 0 <= i < |t| ==> IsDigit(t[i])
    ensures OnlyDigits(t) == t && DigitRun(t) == |t|
  {
    if t != [] { AllDigits(t[1..]); }
  }

  lemma NumeralParts(n: nat)
    ensures var t := Digits(n); UnsignedLength(t) == Some(|t|) && IntegerPart(t) == Some(|t|) && FractionPart(t[|t|..]) == Some(0)
  {
    var t := Digits(n);
    AllDigits(t);
    assert IsDigit(t[0]);
    assert t[|t|..] == [] && t[|t|..][0..] == [];
  }

  lemma NumeralValid(n: nat)
    ensures ValidNumber(Digits(n)) && Digits(n)[0] != 45
  {
    NumeralParts(n);
    assert IsDigit(Digits(n)[0]);
  }

  lemma NumeralOf(n: nat)
    ensures ValidNumber(Digits(n)) && IntegerValue(Digits(n)) == Some(n)
  {
    var t := Digits(n);
    NumeralParts(n);
    NumeralValid(n);
    AllDigits(t);
    DigitsRoundTrip(n);
    assert t[..|t| + 0] == t && t[|t| + 0..] == [];
    ScaledByOne(n);
  }

  lemma ScaledByOne(n: nat)
    ensures Scaled(n, Exponent([]) - 0) == Some(n)
  {
    assert OnlyDigits([]) == [];
    assert Power10(0) == 1;
  }

  predicate Numeric(t: Text) {
    forall i :: 0 <= i < |t| ==> IsDigit(t[i])
  }

  /** A numeral ends here. */
  predicate Stops(t: Text) {
    t == [] || !IsDigit(t[0])
  }

  function FractionText(fraction: Text): Text {
    if fraction == [] then [] else [46] + fraction
  }

  function ExponentText(exponent: Option<int>): Text {
    match exponent
    case None => []
    case Some(e) => [101] + (if e < 0 then [45] + Digits(-e) else Digits(e))
  }

  /** A literal with a fraction and an exponent that may be there or not. */
  function Literal(whole: nat, fraction: Text, exponent: Option<int>): Text {
    Digits(whole) + (FractionText(fraction) + ExponentText(exponent))
  }

  lemma {:induction false} RunStops(a: Text, b: Text)
    requires Numeric(a) && Stops(b)
    ensures DigitRun(a + b) == |a|
  {
    if a == [] {
      assert a + b == b;
    } else {
      RunStops(a[1..], b);
      assert (a + b)[1..] == a[1..] + b;
    }
  }

  lemma {:induction false} OnlyDigitsConcat(a: Text, b: Text)
    ensures OnlyDigits(a + b) == OnlyDigits(a) + OnlyDigits(b)
  {
    if a == [] {
      assert a + b == b;
    } else {
      OnlyDigitsConcat(a[1..], b);
      assert (a + b)[1..] == a[1..] + b;
    }
  }

  lemma OnlyDigitsAfter(u: Unit, a: Text)
    requires !IsDigit(u) && Numeric(a)
    ensures OnlyDigits([u] + a) == a
  {
    AllDigits(a);
    assert ([u] + a)[1..] == a;
  }

  lemma ExponentRead(exponent: Option<int>)
    ensures var t := ExponentText(exponent);
            && Stops(t) && (t == [] || t[0] != 46)
            && ExponentPart(t) == Some(|t|)
            && Exponent(t) == if exponent.None? then 0 else exponent.value
  {
    match exponent
    case None =>
      assert OnlyDigits([]) == [];
    case Some(e) =>
      if e < 0 { NegativeRead(-e); } else { PositiveRead(e); }
  }

  lemma NegativeRead(n: nat)
    ensures var t := [101] + ([45] + Digits(n)); ExponentPart(t) == Some(|t|) && Exponent(t) + n == 0
  {
    hide Digits, DigitRun;
    var numeral := Digits(n);
    var t := [101] + ([45] + numeral);
    AllDigits(numeral);
    DigitsRoundTrip(n);
    assert t[1..] == [45] + numeral && t[2..] == numeral;
    OnlyDigitsAfter(45, numeral);
    OnlyDigitsConcat([101], [45] + numeral);
    LetterGone();
  }

  lemma LetterGone()
    ensures OnlyDigits([101]) == []
  {
  }

  lemma PositiveRead(n: nat)
    ensures var t := [101] + Digits(n); ExponentPart(t) == Some(|t|) && Exponent(t) == n
  {
    hide Digits, DigitRun;
    var numeral := Digits(n);
    var t := [101] + numeral;
    AllDigits(numeral);
    DigitsRoundTrip(n);
    assert t[1..] == numeral && IsDigit(t[1]) by { assert t[1] == numeral[0] && IsDigit(numeral[0]); }
    OnlyDigitsAfter(101, numeral);
  }

  lemma FractionRead(fraction: Text, rest: Text)
    requires Numeric(fraction) && Stops(rest) && (rest == [] || rest[0] != 46)
    ensures var t := FractionText(fraction);
            && FractionPart(t + rest) == Some(|t|) && Stops(t + rest)
            && OnlyDigits(t) == fraction
  {
    if fraction == [] {
      assert FractionText(fraction) + rest == rest;
    } else {
      RunStops(fraction, rest);
      assert (FractionText(fraction) + rest)[1..] == fraction + rest;
      OnlyDigitsAfter(46, fraction);
    }
  }

  lemma WholeRead(whole: nat, rest: Text)
    requires Stops(rest)
    ensures IntegerPart(Digits(whole) + rest) == Some(|Digits(whole)|)
    ensures OnlyDigits(Digits(whole)) == Digits(whole)
  {
    RunStops(Digits(whole), rest);
    AllDigits(Digits(whole));
    assert IsDigit((Digits(whole) + rest)[0]);
  }

  /** The literal stands for this integer: its digits, with the point moved as the exponent says. */
  predicate IsValue(v: int, whole: nat, fraction: Text, exponent: Option<int>)
    requires Numeric(fraction)
  {
    var digits, point := AllDigitsOf(whole, fraction), Point(fraction, exponent);
    v >= 0 && if point >= 0 then v == digits * Power10(point) else v * Power10(-point) == digits
  }

  /** The number that the digits make without the point. */
  function AllDigitsOf(whole: nat, fraction: Text): nat
    requires Numeric(fraction)
  {
    whole * Power10(|fraction|) + DigitsValue(fraction)
  }

  /** How far the point is moved, to the right or to the left. */
  function Point(fraction: Text, exponent: Option<int>): int {
    (if exponent.None? then 0 else exponent.value) - |fraction|
  }

  function Minus(t: Text): Text { [45] + t }

  predicate StandsForInteger(t: Text, v: int) {
    IntegerOf(Some(Number(t))) == Some(v)
  }

  lemma {:induction false} JoinedValue(a: Text, b: Text)
    requires Numeric(a) && Numeric(b)
    ensures Numeric(a + b) && DigitsValue(a + b) == DigitsValue(a) * Power10(|b|) + DigitsValue(b)
  {
    if b == [] {
      assert a + b == a;
      assert Power10(0) == 1;
    } else {
      var n := |b| - 1;
      JoinedValue(a, b[..n]);
      assert (a + b)[..|a + b| - 1] == a + b[..n];
      assert (a + b)[|a + b| - 1] == b[n] && IsDigit(b[n]);
      TimesTen(DigitsValue(a), Power10(n));
    }
  }

  lemma TimesTen(x: nat, p: nat)
    ensures x * p * 10 == x * (10 * p)
  {
  }

  lemma ScaledIff(digits: nat, exponent: int, v: nat)
    ensures Scaled(digits, exponent) == Some(v) <==>
              if exponent >= 0 then v == digits * Power10(exponent) else v * Power10(-exponent) == digits
  {
    hide Power10;
    if exponent < 0 { DividesIff(digits, Power10(-exponent), v); }
  }

  lemma DividesIff(digits: nat, p: nat, v: nat)
    requires p > 0
    ensures v * p == digits <==> digits % p == 0 && digits / p == v
  {
    if v * p == digits { ProductQuotient(p, v); }
  }

  lemma LiteralRead(whole: nat, fraction: Text, exponent: Option<int>)
    requires Numeric(fraction)
    ensures var t := Literal(whole, fraction, exponent);
            && t != [] && t[0] != 45 && UnsignedLength(t) == Some(|t|)
            && UnsignedValue(t) == Scaled(AllDigitsOf(whole, fraction), Point(fraction, exponent))
  {
    hide Power10, DigitRun, Digits, IntegerPart, FractionPart, ExponentPart, ExponentText, Exponent, OnlyDigits, Scaled, DigitsValue;
    var i, f, e := Digits(whole), FractionText(fraction), ExponentText(exponent);
    var t := Literal(whole, fraction, exponent);
    ExponentRead(exponent);
    FractionRead(fraction, e);
    WholeRead(whole, f + e);
    assert t[|i|..] == f + e && (f + e)[|f|..] == e;
    assert IsDigit(t[0]) by { assert t[0] == i[0]; }
    assert t[..|i| + |f|] == i + f && t[|i| + |f|..] == e;
    OnlyDigitsConcat(i, f);
    JoinedValue(i, fraction);
    DigitsRoundTrip(whole);
    assert FractionPart(t[|i|..]).value == |f| by { assert t[|i|..] == f + e; }
    PointPlaces(fraction);
  }

  lemma PointPlaces(fraction: Text)
    ensures (if |FractionText(fraction)| == 0 then 0 else |FractionText(fraction)| - 1) == |fraction|
  {
  }

  /** What integer a literal stands for: exactly what its digits, its point and its exponent say, or none. */
  lemma LiteralValue(whole: nat, fraction: Text, exponent: Option<int>, v: int)
    requires Numeric(fraction)
    ensures StandsForInteger(Literal(whole, fraction, exponent), v) <==> IsValue(v, whole, fraction, exponent)
    ensures StandsForInteger(Minus(Literal(whole, fraction, exponent)), -v) <==> IsValue(v, whole, fraction, exponent)
  {
    hide Power10, Literal, UnsignedLength, UnsignedValue, Scaled, DigitsValue, AllDigitsOf, Point;
    var t := Literal(whole, fraction, exponent);
    LiteralRead(whole, fraction, exponent);
    assert Minus(t)[1..] == t;
    if v >= 0 { ScaledIff(AllDigitsOf(whole, fraction), Point(fraction, exponent), v); }
  }

  // ----------------------------------------------------------------- cursors

  function VersionKey(): Text {
    Ascii("v")
  }
  function NamespaceKey(): Text {
    Ascii("namespace")
  }
  function OffsetKey(): Text {
    Ascii("offset")
  }

  /** `{ v: 1, namespace, offset }` */
  function Payload(offset: nat, namespace: Text): Json {
    Object([
      Member(VersionKey(), Number(Digits(1))),
      Member(NamespaceKey(), String(namespace)),
      Member(OffsetKey(), Number(Digits(offset)))])
  }

  /** `binary` grows by one character per byte; it is the byte sequence again. */
  method EncodeBase64Url(value: Text) returns (r: Text)
    ensures r == Base64.EncodeBytes(Utf8.Encode(value))
  {
    var bytes := Utf8.Encode(value);
    var binary: Text := [];
    for i := 0 to |bytes|
      invariant binary == bytes[..i]
    {
      binary := binary + [bytes[i] as Unit];
    }
    assert bytes[..|bytes|] == bytes;
    r := Base64.Btoa(binary);
    r := Base64.Replace(r, 43, [45]);
    r := Base64.Replace(r, 47, [95]);
    r := Base64.Replace(r, Base64.PAD, []);
  }

  function DecodeBase64Url(value: Text): Option<Text> {
    match Base64.DecodeBytes(value)
    case None => None
    case Some(bytes) => Some(Utf8.DecodeText(bytes))
  }

  function CursorText(offset: nat, namespace: Text): Text {
    Base64.EncodeBytes(Utf8.Encode(Stringify(Payload(offset, namespace))))
  }

  function EncodeCursor(offset: int, namespace: Text): Result<Text, Error> {
    if offset < 0 then Err(BadOffset) else Ok(CursorText(offset, namespace))
  }

  function IntegerOf(v: Option<Json>): Option<int> {
    match v
    case Some(Number(literal)) => if ValidNumber(literal) then IntegerValue(literal) else None
    case _ => None
  }

  function OffsetOf(data: Json, namespace: Text): Option<nat> {
    if !data.Object? then None
    else
      var offset := IntegerOf(Lookup(data.members, OffsetKey()));
      if IntegerOf(Lookup(data.members, VersionKey())) == Some(1)
         && Lookup(data.members, NamespaceKey()) == Some(String(namespace))
         && offset.Some? && offset.value >= 0
      then Some(offset.value)
      else None
  }

  function DecodeCursor(cursor: Option<Text>, namespace: Text): Result<nat, Error> {
    if cursor.None? || cursor.value == [] then Ok(0)
    else if |cursor.value| > 512 then Err(CursorTooLong)
    else
      match DecodeBase64Url(cursor.value)
      case None => Err(BadCursor)
      case Some(text) =>
        match Parse(text)
        case None => Err(BadCursor)
        case Some(data) =>
          match OffsetOf(data, namespace)
          case None => Err(BadCursor)
          case Some(offset) => Ok(offset)
  }

  lemma KeysDiffer()
    ensures VersionKey() != NamespaceKey() && VersionKey() != OffsetKey() && NamespaceKey() != OffsetKey()
  {
    assert |VersionKey()| == 1 && |NamespaceKey()| == 9 && |OffsetKey()| == 6;
  }

  lemma PayloadValid(offset: nat, namespace: Text)
    ensures Valid(Payload(offset, namespace))
  {
    hide ValidNumber, Digits, Ascii;
    KeysDiffer();
    NumeralValid(1);
    NumeralValid(offset);
  }

  lemma {:induction false} LookupOf(a: Member, b: Member, c: Member)
    requires a.key != b.key && a.key != c.key && b.key != c.key
    ensures Lookup([a, b, c], a.key) == Some(a.value)
    ensures Lookup([a, b, c], b.key) == Some(b.value)
    ensures Lookup([a, b, c], c.key) == Some(c.value)
  {
    var abc := [a, b, c];
    assert abc[1..] == [b, c];
    assert abc[1..][1..] == [c];
    assert Lookup([b, c], c.key) == Lookup([c], c.key);
    assert Lookup(abc, b.key) == Lookup([b, c], b.key);
    assert Lookup(abc, c.key) == Lookup([b, c], c.key);
  }

  lemma OffsetOfPayload(offset: nat, written: Text, namespace: Text)
    ensures OffsetOf(Payload(offset, written), namespace) == if written == namespace then Some(offset) else None
  {
    hide IntegerValue, ValidNumber, Lookup, Digits;
    KeysDiffer();
    NumeralOf(1);
    NumeralOf(offset);
    var v := Member(VersionKey(), Number(Digits(1)));
    var name := Member(NamespaceKey(), String(written));
    var off := Member(OffsetKey(), Number(Digits(offset)));
    LookupOf(v, name, off);
  }

  lemma CursorDecodes(offset: nat, namespace: Text)
    ensures DecodeBase64Url(CursorText(offset, namespace)) == Some(Stringify(Payload(offset, namespace)))
    ensures CursorText(offset, namespace) != []
  {
    var data := Payload(offset, namespace);
    var text := Stringify(data);
    PayloadValid(offset, namespace);
    CleanStringify(data);
    assert text[0] == OPEN_BRACE;
    Utf8.TextRoundTrip(text);
    Utf8.NonEmpty(text);
    Base64.BytesRoundTrip(Utf8.Encode(text));
  }

  /**
   A cursor of at most 512 characters decodes to its offset under its own
   namespace and is rejected under every other; a longer one is always rejected.
   */
  lemma CursorRoundTrip(offset: nat, written: Text, namespace: Text)
    ensures EncodeCursor(offset, written) == Ok(CursorText(offset, written))
    ensures DecodeCursor(Some(CursorText(offset, written)), namespace) ==
            if |CursorText(offset, written)| > 512 then Err(CursorTooLong)
            else if written == namespace then Ok(offset)
            else Err(BadCursor)
  {
    CursorDecodes(offset, written);
    PayloadValid(offset, written);
    ParseStringify(Payload(offset, written));
    OffsetOfPayload(offset, written, namespace);
  }

  /** What a cursor has to hold to stand for offset `k` under a namespace. */
  predicate Holds(data: Json, namespace: Text, k: nat) {
    && data.Object?
    && IntegerOf(Lookup(data.members, VersionKey())) == Some(1)
    && Lookup(data.members, NamespaceKey()) == Some(String(namespace))
    && IntegerOf(Lookup(data.members, OffsetKey())) == Some(k)
  }

  lemma KeysSpelled()
    ensures Spells(VersionKey(), "v") && Spells(NamespaceKey(), "namespace") && Spells(OffsetKey(), "offset")
  {
  }

  ghost predicate StandsFor(cursor: Text, namespace: Text, k: nat) {
    DecodeBase64Url(cursor).Some? && Parse(DecodeBase64Url(cursor).value).Some? && Holds(Parse(DecodeBase64Url(cursor).value).value, namespace, k)
  }

  /**
   Any text is accepted as a cursor exactly when it is empty, which is the start of
   the list, or no longer than 512 units and base64url of a JSON object of this
   version and namespace with an offset; else it is refused for its length or for
   what it holds.
   */
  lemma CursorAcceptedIff(cursor: Text, namespace: Text, k: nat)
    ensures DecodeCursor(None, namespace) == DecodeCursor(Some([]), namespace) == Ok(0)
    ensures var r := DecodeCursor(Some(cursor), namespace);
            cursor != [] ==>
              && (r == Ok(k) <==> |cursor| <= 512 && StandsFor(cursor, namespace, k))
              && (r == Err(CursorTooLong) <==> |cursor| > 512)
              && (r.Err? && |cursor| <= 512 ==> r == Err(BadCursor))
  {
    hide DecodeBase64Url, Parse, IntegerOf, Lookup, Ascii;
  }

  lemma DistinctCursors(a: nat, b: nat, namespace: Text)
    requires CursorText(a, namespace) == CursorText(b, namespace)
    ensures a == b
  {
    CursorDecodes(a, namespace);
    CursorDecodes(b, namespace);
    PayloadValid(a, namespace);
    PayloadValid(b, namespace);
    ParseStringify(Payload(a, namespace));
    ParseStringify(Payload(b, namespace));
    OffsetOfPayload(a, namespace, namespace);
    OffsetOfPayload(b, namespace, namespace);
  }

  // ------------------------------------------------------------ cursor length

  predicate Plain(t: Text) {
    forall i :: 0 <= i < |t| ==> 0x20 <= t[i] < 0x80 && t[i] != QUOTE && t[i] != BACKSLASH
  }

  lemma {:induction false} QuotePlain(t: Text)
    requires Plain(t)
    ensures Quote(t) == t
  {
    if t != [] { QuotePlain(t[1..]); }
  }

  lemma {:induction false} AsciiBytes(t: Text)
    requires forall i :: 0 <= i < |t| ==> t[i] < 0x80
    ensures |Utf8.Encode(t)| == |t|
  {
    if t != [] { AsciiBytes(t[1..]); }
  }

  lemma MemberShape(key: Text, v: Json)
    requires Plain(key)
    ensures StringifyMember(Member(key, v)) == ([QUOTE] + key + [QUOTE]) + [COLON] + Stringify(v)
  {
    QuotePlain(key);
  }

  lemma NumberMember(key: Text, n: nat)
    requires Plain(key)
    ensures var t := StringifyMember(Member(key, Number(Digits(n))));
            |t| == |key| + 3 + |Digits(n)| && forall i :: 0 <= i < |t| ==> t[i] < 0x80
  {
    MemberShape(key, Number(Digits(n)));
    assert forall i :: 0 <= i < |Digits(n)| ==> IsDigit(Digits(n)[i]);
  }

  lemma StringMember(key: Text, s: Text)
    requires Plain(key) && Plain(s)
    ensures var t := StringifyMember(Member(key, String(s)));
            |t| == |key| + 5 + |s| && forall i :: 0 <= i < |t| ==> t[i] < 0x80
  {
    MemberShape(key, String(s));
    QuotePlain(s);
  }

  lemma Lengths(open: Unit, a: Text, b: Text, c: Text, close: Unit)
    requires open < 0x80 && close < 0x80
    requires (forall i :: 0 <= i < |a| ==> a[i] < 0x80) && (forall i :: 0 <= i < |b| ==> b[i] < 0x80) && (forall i :: 0 <= i < |c| ==> c[i] < 0x80)
    ensures var t := [open] + (a + ([COMMA] + (b + ([COMMA] + c)))) + [close];
            |t| == 4 + |a| + |b| + |c| && forall i :: 0 <= i < |t| ==> t[i] < 0x80
  {
  }

  lemma PayloadShape(offset: nat, namespace: Text)
    requires Plain(namespace)
    ensures var t := Stringify(Payload(offset, namespace));
            |t| == 32 + |namespace| + |Digits(offset)| && forall i :: 0 <= i < |t| ==> t[i] < 0x80
  {
    hide Stringify, StringifyMember;
    var a := Member(VersionKey(), Number(Digits(1)));
    var b := Member(NamespaceKey(), String(namespace));
    var c := Member(OffsetKey(), Number(Digits(offset)));
    NumberMember(VersionKey(), 1);
    StringMember(NamespaceKey(), namespace);
    NumberMember(OffsetKey(), offset);
    ThreeMembers(a, b, c);
    Lengths(OPEN_BRACE, StringifyMember(a), StringifyMember(b), StringifyMember(c), CLOSE_BRACE);
  }

  lemma ThreeMembers(a: Member, b: Member, c: Member)
    ensures Stringify(Object([a, b, c])) ==
            [OPEN_BRACE] + (StringifyMember(a) + ([COMMA] + (StringifyMember(b) + ([COMMA] + StringifyMember(c))))) + [CLOSE_BRACE]
  {
    assert [a, b, c][1..] == [b, c];
    assert [b, c][1..] == [c];
    assert StringifyMembers([c]) == StringifyMember(c) + [] == StringifyMember(c);
    assert StringifyMembers([b, c]) == StringifyMember(b) + ([COMMA] + StringifyMembers([c]));
    assert StringifyMembers([a, b, c]) == StringifyMember(a) + ([COMMA] + StringifyMembers([b, c]));
  }

  /** In a plain namespace the length of a cursor is known. */
  lemma CursorLength(offset: nat, namespace: Text)
    requires Plain(namespace)
    ensures |CursorText(offset, namespace)| == ((32 + |namespace| + |Digits(offset)|) * 4 + 2) / 3
  {
    var text := Stringify(Payload(offset, namespace));
    PayloadShape(offset, namespace);
    AsciiBytes(text);
    Base64.BytesRoundTrip(Utf8.Encode(text));
  }

  lemma {:induction false} DigitCount(n: nat, k: nat)
    requires k > 0 && n < Power10(k)
    ensures |Digits(n)| <= k
  {
    if n >= 10 { DigitCount(n / 10, k - 1); }
  }

  const MAX_SAFE_INTEGER := 0x1F_FFFF_FFFF_FFFF

  lemma SafeIntegersAreShort(n: nat)
    requires n <= MAX_SAFE_INTEGER
    ensures |Digits(n)| <= 16
  {
    assert Power10(4) == 10000;
    Power10Sum(4, 4);
    Power10Sum(8, 8);
    DigitCount(n, 16);
  }

  lemma {:induction false} Power10Sum(a: nat, b: nat)
    ensures Power10(a + b) == Power10(a) * Power10(b)
  {
    if a > 0 { Power10Sum(a - 1, b); }
  }

  /** So the namespaces the server pages through never meet the limit of 512. */
  lemma ServerCursorsFit(offset: nat, namespace: Text)
    requires offset <= MAX_SAFE_INTEGER
    requires namespace in [Ascii("tools"), Ascii("resources"), Ascii("prompts"), Ascii("page")]
    ensures |CursorText(offset, namespace)| <= 512
  {
    assert |namespace| <= 9;
    SafeIntegersAreShort(offset);
    CursorLength(offset, namespace);
  }

  // ------------------------------------------------------------------- pages

  function PageFrom<T>(items: seq<T>, offset: nat, limit: int, namespace: Text): Page<T, Text> {
    PageAt(items, offset, limit, (n: nat) => CursorText(n, namespace))
  }

  datatype Options = Options(cursor: Option<Text>, limit: Limit, defaultLimit: int, maxLimit: int)

  function PaginateArray<T>(items: seq<T>, options: Options, namespace: Text): Result<Page<T, Text>, Error> {
    match NormalizeLimit(options.limit, options.defaultLimit, options.maxLimit)
    case Err(e) => Err(e)
    case Ok(limit) =>
      match DecodeCursor(options.cursor, namespace)
      case Err(e) => Err(e)
      case Ok(offset) => Ok(PageFrom(items, offset, limit, namespace))
  }

  // -------------------------------------------------------------- the page walk

  /** `paginateArray` of one list with fixed options, as a function of the cursor. */
  function FetchPage<T>(items: seq<T>, options: Options, namespace: Text): Fetch<T, Text, Error> {
    (cursor: Option<Text>) => PaginateArray(items, options.(cursor := cursor), namespace)
  }

  /** Every cursor into the list is short enough to be accepted. */
  ghost predicate CursorsFit(n: nat, namespace: Text) {
    forall offset {:trigger CursorText(offset, namespace)} :: 0 <= offset < n ==> |CursorText(offset, namespace)| <= 512
  }

  lemma FetchServes<T>(items: seq<T>, options: Options, namespace: Text, limit: int)
    requires NormalizeLimit(options.limit, options.defaultLimit, options.maxLimit) == Ok(limit)
    requires CursorsFit(|items|, namespace)
    ensures Serves(FetchPage(items, options, namespace), items, limit, (n: nat) => CursorText(n, namespace))
  {
    var name := (n: nat) => CursorText(n, namespace);
    var fetch := FetchPage(items, options, namespace);
    forall offset: nat | offset < |items|
      ensures fetch(Some(name(offset))) == Ok(PageAt(items, offset, limit, name))
    {
      CursorRoundTrip(offset, namespace, namespace);
    }
  }

  /**
   Starting without a cursor and following `nextCursor` under a positive
   effective limit visits exactly max(1, ceil(n / limit)) pages, whose items
   together are the whole list, in order and each once.
   */
  lemma PagesCoverTheList<T>(items: seq<T>, options: Options, namespace: Text, limit: nat) returns (pages: seq<seq<T>>)
    requires NormalizeLimit(options.limit, options.defaultLimit, options.maxLimit) == Ok(limit) && limit > 0
    requires CursorsFit(|items|, namespace)
    ensures IsPageCount(|pages|, |items|, limit)
    ensures forall k :: 0 <= k < |pages| ==> Shows(FetchPage(items, options, namespace), k, pages[k])
    ensures Follow(FetchPage(items, options, namespace), |pages|) == None
    ensures Flatten(pages) == items
  {
    FetchServes(items, options, namespace, limit);
    pages := WalkVisitsEverything(FetchPage(items, options, namespace), items, limit, (n: nat) => CursorText(n, namespace));
  }

  /**
   A limit that is passed never makes the walk endless: it is refused on the first
   page unless it is an integer from 1 to the maximum.  The default is not checked,
   and the walk goes on for ever exactly when there is something to page, no limit
   is passed and the default is not positive.
   */
  lemma PagesEnd<T>(items: seq<T>, options: Options, namespace: Text)
    requires CursorsFit(|items|, namespace)
    ensures (forall k: nat :: Follow(FetchPage(items, options, namespace), k).Some?)
            <==> options.limit.Undefined? && options.defaultLimit <= 0 && items != []
    ensures FetchPage(items, options, namespace)(None).Err?
            <==> !options.limit.Undefined? && !(options.limit.Integer? && 1 <= options.limit.n <= options.maxLimit)
    ensures FetchPage(items, options, namespace)(None).Err? ==>
              FetchPage(items, options, namespace)(None).error ==
              if options.limit.Other? then LimitNotInteger else if options.limit.n < 1 then LimitTooSmall else LimitTooLarge
  {
    var fetch := FetchPage(items, options, namespace);
    match NormalizeLimit(options.limit, options.defaultLimit, options.maxLimit)
    case Err(e) =>
      assert fetch(None) == Err(e);
      assert Follow(fetch, 1) == None;
    case Ok(limit) =>
      FetchServes(items, options, namespace, limit);
      WalkEnds(fetch, items, limit, (n: nat) => CursorText(n, namespace));
  }
}
