/**
 `JSON.stringify` (without indentation) and `JSON.parse` on JSON values, after
 RFC 8259.  A number is kept as its literal, so that the conversion to and from
 binary floating point is left to the reader of the literal.  The members of an
 object keep the order in which they were first written; when a name is written
 twice the last value counts, as it does for `JSON.parse`.
 */
module JsonFormat {
  import opened Optional
  import opened Text

  datatype Json =
    | Null
    | Bool(b: bool)
    | Number(literal: Text)
    | String(s: Text)
    | Array(items: seq<Json>)
    | Object(members: seq<Member>)

  datatype Member = Member(key: Text, value: Json)

  datatype Parsed<+T> = Fail | Got(value: T, rest: Text)

  const QUOTE: Unit := 34
  const BACKSLASH: Unit := 92
  const COMMA: Unit := 44
  const COLON: Unit := 58
  const OPEN_BRACKET: Unit := 91
  const CLOSE_BRACKET: Unit := 93
  const OPEN_BRACE: Unit := 123
  const CLOSE_BRACE: Unit := 125

  // ----------------------------------------------------------------- strings

  function HexDigit(x: nat): Unit
    requires x < 16
  {
    if x < 10 then 48 + x else 87 + x
  }

  function FromHexDigit(u: Unit): Option<nat> {
    if 48 <= u <= 57 then Some(u as int - 48)
    else if 97 <= u <= 102 then Some(u as int - 87)
    else if 65 <= u <= 70 then Some(u as int - 55)
    else None
  }

  /** `\uXXXX` in lower case. */
  function UnicodeEscape(u: Unit): (t: Text)
    ensures |t| == 6
  {
    [BACKSLASH, 117, HexDigit(u / 0x1000), HexDigit(u / 0x100 % 16), HexDigit(u / 16 % 16), HexDigit(u % 16)]
  }

  /** The letter of a two-character escape, if the unit has one. */
  function ShortEscape(u: Unit): Option<Unit> {
    if u == 8 then Some(98)
    else if u == 9 then Some(116)
    else if u == 10 then Some(110)
    else if u == 12 then Some(102)
    else if u == 13 then Some(114)
    else if u == QUOTE then Some(QUOTE)
    else if u == BACKSLASH then Some(BACKSLASH)
    else None
  }

  function QuoteUnit(u: Unit): Text {
    if ShortEscape(u).Some? then [BACKSLASH, ShortEscape(u).value]
    else if u < 0x20 || IsHigh(u) || IsLow(u) then UnicodeEscape(u)
    else [u]
  }

  /** The body of a string literal; unpaired surrogates are escaped, pairs are not. */
  function Quote(s: Text): Text {
    if s == [] then []
    else if StartsWithPair(s) then s[..2] + Quote(s[2..])
    else QuoteUnit(s[0]) + Quote(s[1..])
  }

  function FromShortEscape(u: Unit): Option<Unit> {
    if u == 98 then Some(8)
    else if u == 116 then Some(9)
    else if u == 110 then Some(10)
    else if u == 102 then Some(12)
    else if u == 114 then Some(13)
    else if u == QUOTE || u == BACKSLASH || u == 47 then Some(u)
    else None
  }

  function ParseHex4(t: Text): Option<Unit> {
    if |t| < 4 then None
    else
      match (FromHexDigit(t[0]), FromHexDigit(t[1]), FromHexDigit(t[2]), FromHexDigit(t[3]))
      case (Some(a), Some(b), Some(c), Some(d)) =>
        var v := a * 0x1000 + b * 0x100 + c * 16 + d;
        if v < 0x1_0000 then Some(v) else None
      case _ => None
  }

  /** Reads a string literal after its opening quote. */
  function ParseString(t: Text): (r: Parsed<Text>)
    ensures r.Got? ==> |r.rest| < |t|
  {
    if t == [] then Fail
    else if t[0] == QUOTE then Got([], t[1..])
    else if t[0] == BACKSLASH then
      if |t| == 1 then Fail
      else if t[1] == 117 then
        match ParseHex4(t[2..])
        case Some(u) => Cons(u, ParseString(t[6..]))
        case None => Fail
      else
        match FromShortEscape(t[1])
        case Some(u) => Cons(u, ParseString(t[2..]))
        case None => Fail
    else if t[0] < 0x20 then Fail
    else Cons(t[0], ParseString(t[1..]))
  }

  function Cons(u: Unit, r: Parsed<Text>): Parsed<Text> {
    match r
    case Fail => Fail
    case Got(s, rest) => Got([u] + s, rest)
  }

  // ----------------------------------------------------------------- numbers

  /** How many digits the text begins with. */
  function DigitRun(t: Text): (n: nat)
    ensures n <= |t|
    ensures n < |t| ==> !IsDigit(t[n])
  {
    if t != [] && IsDigit(t[0]) then 1 + DigitRun(t[1..]) else 0
  }

  /** The length of the integer part, without a sign: zero alone or no leading zero. */
  function IntegerPart(t: Text): (n: Option<nat>)
    ensures n.Some? ==> 0 < n.value <= |t|
  {
    if t == [] || !IsDigit(t[0]) then None
    else if t[0] == 48 then Some(1)
    else Some(DigitRun(t))
  }

  /** The length of the fraction, if one begins here. */
  function FractionPart(t: Text): (n: Option<nat>)
    ensures n.Some? ==> n.value <= |t|
  {
    if t == [] || t[0] != 46 then Some(0)
    else if DigitRun(t[1..]) == 0 then None
    else Some(1 + DigitRun(t[1..]))
  }

  function ExponentPart(t: Text): (n: Option<nat>)
    ensures n.Some? ==> n.value <= |t|
  {
    if t == [] || (t[0] != 101 && t[0] != 69) then Some(0)
    else
      var sign := if |t| > 1 && (t[1] == 43 || t[1] == 45) then 1 else 0;
      if DigitRun(t[1 + sign..]) == 0 then None
      else Some(1 + sign + DigitRun(t[1 + sign..]))
  }

  function Plus(n: nat, m: Option<nat>): Option<nat> {
    if m.Some? then Some(n + m.value) else None
  }

  function FractionExponent(t: Text): (n: Option<nat>)
    ensures n.Some? ==> n.value <= |t|
  {
    match FractionPart(t)
    case None => None
    case Some(f) => Plus(f, ExponentPart(t[f..]))
  }

  function UnsignedLength(t: Text): (n: Option<nat>)
    ensures n.Some? ==> 0 < n.value <= |t|
  {
    match IntegerPart(t)
    case None => None
    case Some(i) => Plus(i, FractionExponent(t[i..]))
  }

  /** The length of the number literal the text begins with (section 6 of RFC 8259). */
  function NumberLength(t: Text): (n: Option<nat>)
    ensures n.Some? ==> 0 < n.value <= |t|
  {
    if t != [] && t[0] == 45 then Plus(1, UnsignedLength(t[1..])) else UnsignedLength(t)
  }

  predicate ValidNumber(literal: Text) {
    NumberLength(literal) == Some(|literal|)
  }

  // --------------------------------------------------------------- stringify

  function NullText(): Text {
    Ascii("null")
  }
  function TrueText(): Text {
    Ascii("true")
  }
  function FalseText(): Text {
    Ascii("false")
  }

  function Stringify(v: Json): Text
    decreases v, 1
  {
    match v
    case Null => NullText()
    case Bool(b) => if b then TrueText() else FalseText()
    case Number(literal) => literal
    case String(s) => StringifyText(s)
    case Array(items) => [OPEN_BRACKET] + StringifyItems(items) + [CLOSE_BRACKET]
    case Object(members) => [OPEN_BRACE] + StringifyMembers(members) + [CLOSE_BRACE]
  }

  function StringifyText(s: Text): Text {
    [QUOTE] + Quote(s) + [QUOTE]
  }

  function StringifyItems(items: seq<Json>): Text
    decreases items, 0
  {
    if items == [] then []
    else Stringify(items[0]) + (if |items| == 1 then [] else [COMMA] + StringifyItems(items[1..]))
  }

  function StringifyMembers(members: seq<Member>): Text
    decreases members, 0
  {
    if members == [] then []
    else StringifyMember(members[0]) + (if |members| == 1 then [] else [COMMA] + StringifyMembers(members[1..]))
  }

  function StringifyMember(m: Member): Text
    decreases m, 0
  {
    StringifyText(m.key) + [COLON] + Stringify(m.value)
  }

  // ------------------------------------------------------------------- parser

  predicate IsJsonSpace(u: Unit) {
    u == 0x20 || u == 0x09 || u == 0x0A || u == 0x0D
  }

  function SkipSpace(t: Text): (r: Text)
    ensures |r| <= |t|
  {
    if t != [] && IsJsonSpace(t[0]) then SkipSpace(t[1..]) else t
  }

  function ParseWord(t: Text, word: Text, v: Json): (r: Parsed<Json>)
    ensures word != [] && r.Got? ==> |r.rest| < |t|
  {
    if word <= t then Got(v, t[|word|..]) else Fail
  }

  function ParseNumber(t: Text): (r: Parsed<Json>)
    ensures r.Got? ==> |r.rest| < |t|
  {
    match NumberLength(t)
    case None => Fail
    case Some(n) => Got(Number(t[..n]), t[n..])
  }

  function ParseValue(text: Text): (r: Parsed<Json>)
    ensures r.Got? ==> |r.rest| < |text|
    decreases |text|, 0
  {
    var t := SkipSpace(text);
    if t == [] then Fail
    else if t[0] == QUOTE then
      match ParseString(t[1..])
      case Fail => Fail
      case Got(s, rest) => Got(String(s), rest)
    else if t[0] == OPEN_BRACKET then
      var body := SkipSpace(t[1..]);
      if body != [] && body[0] == CLOSE_BRACKET then Got(Array([]), body[1..])
      else
        match ParseItems(t[1..])
        case Fail => Fail
        case Got(items, rest) => Got(Array(items), rest)
    else if t[0] == OPEN_BRACE then
      var body := SkipSpace(t[1..]);
      if body != [] && body[0] == CLOSE_BRACE then Got(Object([]), body[1..])
      else
        match ParseMembers(t[1..])
        case Fail => Fail
        case Got(members, rest) => Got(Object(Merge(members)), rest)
    else if t[0] == 110 then ParseWord(t, NullText(), Null)
    else if t[0] == 116 then ParseWord(t, TrueText(), Bool(true))
    else if t[0] == 102 then ParseWord(t, FalseText(), Bool(false))
    else ParseNumber(t)
  }

  function ParseItems(text: Text): (r: Parsed<seq<Json>>)
    ensures r.Got? ==> |r.rest| < |text|
    decreases |text|, 1
  {
    match ParseValue(text)
    case Fail => Fail
    case Got(v, rest) =>
      var t := SkipSpace(rest);
      if t == [] then Fail
      else if t[0] == CLOSE_BRACKET then Got([v], t[1..])
      else if t[0] != COMMA then Fail
      else
        match ParseItems(t[1..])
        case Fail => Fail
        case Got(items, rest') => Got([v] + items, rest')
  }

  function ParseMember(text: Text): (r: Parsed<Member>)
    ensures r.Got? ==> |r.rest| < |text|
    decreases |text|, 1
  {
    var t := SkipSpace(text);
    if t == [] || t[0] != QUOTE then Fail
    else
      match ParseString(t[1..])
      case Fail => Fail
      case Got(key, rest) =>
        var u := SkipSpace(rest);
        if u == [] || u[0] != COLON then Fail
        else
          match ParseValue(u[1..])
          case Fail => Fail
          case Got(v, rest') => Got(Member(key, v), rest')
  }

  function ParseMembers(text: Text): (r: Parsed<seq<Member>>)
    ensures r.Got? ==> |r.rest| < |text|
    decreases |text|, 2
  {
    match ParseMember(text)
    case Fail => Fail
    case Got(m, rest) =>
      var t := SkipSpace(rest);
      if t == [] then Fail
      else if t[0] == CLOSE_BRACE then Got([m], t[1..])
      else if t[0] != COMMA then Fail
      else
        match ParseMembers(t[1..])
        case Fail => Fail
        case Got(members, rest') => Got([m] + members, rest')
  }

  /** Members in the order in which their keys first occur; the last value of a key wins. */
  function Merge(members: seq<Member>): seq<Member> {
    if members == [] then []
    else Put(Merge(members[..|members| - 1]), members[|members| - 1])
  }

  function Put(members: seq<Member>, m: Member): (r: seq<Member>)
    ensures m.key !in Keys(members) ==> r == members + [m]
  {
    if members == [] then [m]
    else if members[0].key == m.key then [m] + members[1..]
    else [members[0]] + Put(members[1..], m)
  }

  function Keys(members: seq<Member>): set<Text> {
    set i | 0 <= i < |members| :: members[i].key
  }

  /** The value of a member; its name is expected once. */
  function Lookup(members: seq<Member>, key: Text): Option<Json> {
    if members == [] then None
    else if members[0].key == key then Some(members[0].value)
    else Lookup(members[1..], key)
  }

  lemma {:induction false} LookupSkips(front: seq<Member>, rest: seq<Member>, key: Text)
    requires forall m :: m in front ==> m.key != key
    ensures Lookup(front + rest, key) == Lookup(rest, key)
  {
    if front == [] {
      assert front + rest == rest;
    } else {
      LookupSkips(front[1..], rest, key);
      assert (front + rest)[1..] == front[1..] + rest;
    }
  }

  lemma {:induction false} LookupAt(members: seq<Member>, i: nat, key: Text)
    requires i < |members| && members[i].key == key && forall j :: 0 <= j < i ==> members[j].key != key
    ensures Lookup(members, key) == Some(members[i].value)
  {
    if i > 0 { LookupAt(members[1..], i - 1, key); }
  }

  lemma {:induction false} LookupNone(members: seq<Member>, key: Text)
    requires forall j :: 0 <= j < |members| ==> members[j].key != key
    ensures Lookup(members, key) == None
  {
    if members != [] { LookupNone(members[1..], key); }
  }

  function Parse(text: Text): Option<Json> {
    match ParseValue(text)
    case Fail => None
    case Got(v, rest) => if SkipSpace(rest) == [] then Some(v) else None
  }

  // ------------------------------------------------------ values of the model

  ghost predicate DistinctKeys(members: seq<Member>) {
    forall i, j :: 0 <= i < j < |members| ==> members[i].key != members[j].key
  }

  /** Number literals obey the grammar and objects have no key twice. */
  ghost predicate Valid(v: Json)
    decreases v
  {
    match v
    case Number(literal) => ValidNumber(literal)
    case Array(items) => forall i :: 0 <= i < |items| ==> Valid(items[i])
    case Object(members) => DistinctKeys(members) && forall i :: 0 <= i < |members| ==> Valid(members[i].value)
    case _ => true
  }
}
