/** The grammar of JSON, and that it is what the reader of `JsonFormat` reads. */
module JsonGrammar {
  import opened Optional
  import opened Text
  import opened JsonFormat
  import opened JsonRoundTrip

  // ------------------------------------------------------------- the grammar

  // Sections 2 to 7 of RFC 8259, as a relation between texts and values.

  predicate Blank(u: Unit) { u == 0x20 || u == 0x09 || u == 0x0A || u == 0x0D }

  predicate Blanks(t: Text) {
    forall i :: 0 <= i < |t| ==> Blank(t[i])
  }

  predicate Numeric(t: Text) {
    forall i :: 0 <= i < |t| ==> IsDigit(t[i])
  }

  /** `int`: no zero leads. */
  predicate WholeText(t: Text) {
    t != [] && Numeric(t) && (t[0] == 48 ==> |t| == 1)
  }

  /** `[ frac ]` */
  predicate FractionText(t: Text) {
    t == [] || (|t| >= 2 && t[0] == 46 && Numeric(t[1..]))
  }

  /** `[ exp ]` */
  predicate ExponentText(t: Text) {
    t == [] ||
    (|t| >= 2 && (t[0] == 101 || t[0] == 69) &&
     (Numeric(t[1..]) || (|t| >= 3 && (t[1] == 43 || t[1] == 45) && Numeric(t[2..]))))
  }

  predicate Parts(t: Text, i: nat, j: nat) {
    i <= j <= |t| && WholeText(t[..i]) && FractionText(t[i..j]) && ExponentText(t[j..])
  }

  ghost predicate UnsignedText(t: Text) {
    exists i: nat, j: nat :: Parts(t, i, j)
  }

  ghost predicate NumberText(t: Text) {
    UnsignedText(t) || (t != [] && t[0] == 45 && UnsignedText(t[1..]))
  }

  /** After a backslash the letter stands for the unit. */
  predicate Escapes(letter: Unit, u: Unit) {
    || (letter == 34 && u == 34) || (letter == 92 && u == 92) || (letter == 47 && u == 47)
    || (letter == 98 && u == 8) || (letter == 102 && u == 12) || (letter == 110 && u == 10)
    || (letter == 114 && u == 13) || (letter == 116 && u == 9)
  }

  predicate HexIs(digit: Unit, x: int) {
    || (48 <= digit <= 57 && x == digit as int - 48)
    || (65 <= digit <= 70 && x == digit as int - 55)
    || (97 <= digit <= 102 && x == digit as int - 87)
  }

  predicate HexFour(t: Text, u: Unit) {
    && |t| >= 4 && HexIs(t[0], u / 0x1000) && HexIs(t[1], u / 0x100 % 16) && HexIs(t[2], u / 16 % 16) && HexIs(t[3], u % 16)
  }

  /** The characters between the quotes. */
  predicate CharsDenote(t: Text, s: Text)
    decreases |t|
  {
    if s == [] then t == []
    else if t == [] then false
    else if t[0] != 92 then t[0] >= 0x20 && t[0] != 34 && t[0] == s[0] && CharsDenote(t[1..], s[1..])
    else
      || (|t| >= 2 && Escapes(t[1], s[0]) && CharsDenote(t[2..], s[1..]))
      || (|t| >= 6 && t[1] == 117 && HexFour(t[2..], s[0]) && CharsDenote(t[6..], s[1..]))
  }

  predicate Quoted(t: Text, s: Text) {
    |t| >= 2 && t[0] == 34 && t[|t| - 1] == 34 && CharsDenote(t[1..|t| - 1], s)
  }

  /** The text, without blanks around it, stands for the value. A key that is repeated counts as `Merge` has it. */
  ghost predicate Denotes(t: Text, v: Json)
    decreases |t|, 0
  {
    match v
    case Null => Spells(t, "null")
    case Bool(b) => Spells(t, if b then "true" else "false")
    case Number(literal) => t == literal && NumberText(t)
    case String(s) => Quoted(t, s)
    case Array(items) => |t| >= 2 && t[0] == 91 && t[|t| - 1] == 93 && ItemsDenote(t[1..|t| - 1], items)
    case Object(members) =>
      |t| >= 2 && t[0] == 123 && t[|t| - 1] == 125 && exists list :: Merge(list) == members && MembersDenote(t[1..|t| - 1], list)
  }

  ghost predicate Within(t: Text, v: Json, i: nat, j: nat)
    decreases |t|, 1
  {
    i <= j <= |t| && Blanks(t[..i]) && Blanks(t[j..]) && Denotes(t[i..j], v)
  }

  ghost predicate Padded(t: Text, v: Json)
    decreases |t|, 2
  {
    exists i: nat, j: nat :: Within(t, v, i, j)
  }

  ghost predicate ItemUpTo(body: Text, items: seq<Json>, k: nat)
    requires items != []
    decreases |body|, 3
  {
    && k <= |body| && Padded(body[..k], items[0])
    && if |items| == 1 then k == |body| else k < |body| && body[k] == 44 && ItemsDenote(body[k + 1..], items[1..])
  }

  /** What stands between the brackets. */
  ghost predicate ItemsDenote(body: Text, items: seq<Json>)
    decreases |body|, 4
  {
    if items == [] then Blanks(body) else exists k: nat :: ItemUpTo(body, items, k)
  }

  predicate KeyWithin(t: Text, key: Text, i: nat, j: nat) {
    i <= j <= |t| && Blanks(t[..i]) && Blanks(t[j..]) && Quoted(t[i..j], key)
  }

  ghost predicate PaddedKey(t: Text, key: Text) {
    exists i: nat, j: nat :: KeyWithin(t, key, i, j)
  }

  ghost predicate MemberUpTo(body: Text, members: seq<Member>, c: nat, k: nat)
    requires members != []
    decreases |body|, 3
  {
    && c < k <= |body| && PaddedKey(body[..c], members[0].key) && body[c] == 58 && Padded(body[c + 1..k], members[0].value)
    && if |members| == 1 then k == |body| else k < |body| && body[k] == 44 && MembersDenote(body[k + 1..], members[1..])
  }

  /** What stands between the braces. */
  ghost predicate MembersDenote(body: Text, members: seq<Member>)
    decreases |body|, 4
  {
    if members == [] then Blanks(body) else exists c: nat, k: nat :: MemberUpTo(body, members, c, k)
  }

  // ------------------------------------------------------------------ blanks

  lemma {:induction false} SkipBlanks(before: Text, rest: Text)
    requires Blanks(before)
    ensures SkipSpace(before + rest) == SkipSpace(rest)
  {
    if before == [] {
      assert before + rest == rest;
    } else {
      SkipBlanks(before[1..], rest);
      assert (before + rest)[1..] == before[1..] + rest;
    }
  }

  /** What is skipped is blank, and what follows is not. */
  lemma {:induction false} Skipped(t: Text)
    ensures var n := |t| - |SkipSpace(t)|; SkipSpace(t) == t[n..] && Blanks(t[..n]) && (n < |t| ==> !Blank(t[n]))
  {
    if t != [] && IsJsonSpace(t[0]) {
      Skipped(t[1..]);
      var n := |t| - |SkipSpace(t)|;
      assert t[..n] == [t[0]] + t[1..][..n - 1];
    }
  }

  // ----------------------------------------------------------------- strings

  lemma HexRead(t: Text, u: Unit)
    requires HexFour(t, u)
    ensures ParseHex4(t) == Some(u)
  {
    assert u == u / 0x1000 * 0x1000 + u / 0x100 % 16 * 0x100 + u / 16 % 16 * 16 + u % 16 by { HexSum(u); }
  }

  lemma HexSum(u: Unit)
    ensures u == u / 0x1000 * 0x1000 + u / 0x100 % 16 * 0x100 + u / 16 % 16 * 16 + u % 16
  {
    assert u / 0x100 == u / 16 / 16 && u / 0x1000 == u / 0x100 / 16;
  }

  lemma HexReadBack(t: Text)
    requires ParseHex4(t).Some?
    ensures HexFour(t, ParseHex4(t).value)
  {
    var a, b, c, d := FromHexDigit(t[0]).value, FromHexDigit(t[1]).value, FromHexDigit(t[2]).value, FromHexDigit(t[3]).value;
    HexDigits(a, b, c, d);
  }

  lemma HexDigits(a: nat, b: nat, c: nat, d: nat)
    requires a < 16 && b < 16 && c < 16 && d < 16
    ensures var v := a * 0x1000 + b * 0x100 + c * 16 + d;
            v / 0x1000 == a && v / 0x100 % 16 == b && v / 16 % 16 == c && v % 16 == d
  {
    var v := a * 0x1000 + b * 0x100 + c * 16 + d;
    assert v / 16 == a * 0x100 + b * 16 + c;
    assert v / 0x100 == a * 16 + b;
  }

  lemma {:induction false} CharsParse(t: Text, s: Text, rest: Text)
    requires CharsDenote(t, s)
    ensures ParseString(t + ([QUOTE] + rest)) == Got(s, rest)
    decreases |t|
  {
    hide HexFour, ParseHex4;
    var text := t + ([QUOTE] + rest);
    if s == [] {
      assert text[1..] == rest;
    } else {
      assert s == [s[0]] + s[1..];
      if t[0] != 92 {
        assert text[1..] == t[1..] + ([QUOTE] + rest);
        CharsParse(t[1..], s[1..], rest);
      } else if Escapes(t[1], s[0]) && CharsDenote(t[2..], s[1..]) {
        assert text[2..] == t[2..] + ([QUOTE] + rest);
        CharsParse(t[2..], s[1..], rest);
      } else {
        assert text[6..] == t[6..] + ([QUOTE] + rest);
        HexStarts(t[2..], text[2..], s[0]);
        HexRead(text[2..], s[0]);
        CharsParse(t[6..], s[1..], rest);
      }
    }
  }

  lemma HexStarts(t: Text, text: Text, u: Unit)
    requires HexFour(t, u) && t <= text
    ensures HexFour(text, u)
  {
  }

  lemma {:induction false} CharsParsed(text: Text) returns (n: nat)
    requires ParseString(text).Got?
    ensures n < |text| && text[n] == QUOTE && ParseString(text).rest == text[n + 1..] && CharsDenote(text[..n], ParseString(text).value)
    decreases |text|
  {
    if text[0] == QUOTE {
      n := 0;
    } else if text[0] == BACKSLASH {
      if text[1] == 117 {
        hide HexFour, ParseHex4;
        var u := ParseHex4(text[2..]).value;
        var m := CharsParsed(text[6..]);
        n := m + 6;
        HexReadBack(text[2..]);
        assert text[..n][6..] == text[6..][..m];
        HexCut(text, n, u);
        CharsNext(text[..n], u, ParseString(text[6..]).value, 6);
      } else {
        var m := CharsParsed(text[2..]);
        n := m + 2;
        assert text[..n][2..] == text[2..][..m];
        CharsNext(text[..n], FromShortEscape(text[1]).value, ParseString(text[2..]).value, 2);
      }
    } else {
      var m := CharsParsed(text[1..]);
      n := m + 1;
      assert text[..n][1..] == text[1..][..m];
      CharsNext(text[..n], text[0], ParseString(text[1..]).value, 1);
    }
  }

  lemma CharsNext(t: Text, u: Unit, s: Text, n: nat)
    requires n <= |t| && CharsDenote(t[n..], s)
    requires match n
             case 1 => t[0] != 92 && t[0] >= 0x20 && t[0] != 34 && t[0] == u
             case 2 => t[0] == 92 && Escapes(t[1], u)
             case 6 => t[0] == 92 && t[1] == 117 && HexFour(t[2..], u)
             case _ => false
    ensures CharsDenote(t, [u] + s)
  {
    hide HexFour;
    assert ([u] + s)[1..] == s;
  }

  lemma HexCut(text: Text, n: nat, u: Unit)
    requires 6 <= n <= |text| && HexFour(text[2..], u)
    ensures HexFour(text[..n][2..], u)
  {
    assert text[..n][2..] <= text[2..];
  }

  // ----------------------------------------------------------------- numbers

  predicate StopsRun(t: Text) {
    t == [] || !IsDigit(t[0])
  }

  lemma {:induction false} RunStops(a: Text, b: Text)
    requires Numeric(a) && StopsRun(b)
    ensures DigitRun(a + b) == |a|
  {
    if a == [] {
      assert a + b == b;
    } else {
      RunStops(a[1..], b);
      assert (a + b)[1..] == a[1..] + b;
    }
  }

  lemma {:induction false} RunIsNumeric(t: Text)
    ensures Numeric(t[..DigitRun(t)])
  {
    if t != [] && IsDigit(t[0]) {
      RunIsNumeric(t[1..]);
      assert t[..DigitRun(t)] == [t[0]] + t[1..][..DigitRun(t[1..])];
    }
  }

  lemma RunOfNumeric(t: Text)
    requires Numeric(t)
    ensures DigitRun(t) == |t|
  {
    RunStops(t, []);
    assert t + [] == t;
  }

  lemma PartsRead(t: Text, i: nat, j: nat)
    requires Parts(t, i, j)
    ensures UnsignedLength(t) == Some(|t|)
  {
    var whole, fraction, exponent := t[..i], t[i..j], t[j..];
    assert t == whole + t[i..] && t[i..] == fraction + exponent;
    ExponentRead(exponent);
    FractionRead(fraction, exponent);
    hide DigitRun, FractionText, ExponentText, FractionPart, ExponentPart;
    RunStops(whole, t[i..]);
    assert IntegerPart(t) == Some(i) by { assert t[0] == whole[0]; }
    assert t[i..][j - i..] == exponent;
  }

  lemma FractionRead(fraction: Text, rest: Text)
    requires FractionText(fraction) && StopsRun(rest) && (rest == [] || rest[0] != 46)
    ensures FractionPart(fraction + rest) == Some(|fraction|) && StopsRun(fraction + rest)
  {
    hide DigitRun;
    if fraction == [] {
      assert fraction + rest == rest;
    } else {
      RunStops(fraction[1..], rest);
      assert (fraction + rest)[1..] == fraction[1..] + rest;
    }
  }

  lemma ExponentRead(t: Text)
    requires ExponentText(t)
    ensures ExponentPart(t) == Some(|t|) && StopsRun(t) && (t == [] || t[0] != 46)
  {
    hide DigitRun;
    if t != [] {
      if Numeric(t[1..]) {
        assert IsDigit(t[1..][0]);
        RunOfNumeric(t[1..]);
      } else {
        RunOfNumeric(t[2..]);
      }
    }
  }

  lemma PartsOf(t: Text) returns (i: nat, j: nat)
    requires UnsignedLength(t).Some?
    ensures Parts(t[..UnsignedLength(t).value], i, j)
  {
    hide FractionText, ExponentText, FractionPart, ExponentPart;
    i := IntegerPart(t).value;
    var f := FractionPart(t[i..]).value;
    j := i + f;
    RunIsNumeric(t);
    FractionOf(t[i..]);
    var n := UnsignedLength(t).value;
    assert t[i..][f..] == t[j..];
    ExponentOf(t[j..]);
    assert t[..n][..i] == t[..i] && t[..n][i..j] == t[i..][..f] && t[..n][j..] == t[j..][..n - j];
  }

  lemma FractionOf(t: Text)
    requires FractionPart(t).Some?
    ensures FractionText(t[..FractionPart(t).value])
  {
    if t != [] && t[0] == 46 {
      RunIsNumeric(t[1..]);
      assert t[..FractionPart(t).value][1..] == t[1..][..DigitRun(t[1..])];
    }
  }

  lemma ExponentOf(t: Text)
    requires ExponentPart(t).Some?
    ensures ExponentText(t[..ExponentPart(t).value])
  {
    if t != [] && (t[0] == 101 || t[0] == 69) {
      var sign := if |t| > 1 && (t[1] == 43 || t[1] == 45) then 1 else 0;
      var e := ExponentPart(t).value;
      RunIsNumeric(t[1 + sign..]);
      assert t[..e][1 + sign..] == t[1 + sign..][..e - 1 - sign];
    }
  }

  lemma NumberTextIff(t: Text)
    ensures NumberText(t) <==> ValidNumber(t)
  {
    hide Parts, UnsignedLength;
    UnsignedIff(t);
    if t != [] && t[0] == 45 {
      UnsignedIff(t[1..]);
      NoSign(t);
    }
  }

  lemma NoSign(t: Text)
    requires t != [] && t[0] == 45
    ensures UnsignedLength(t) == None
  {
  }

  lemma UnsignedIff(t: Text)
    ensures UnsignedText(t) <==> UnsignedLength(t) == Some(|t|)
  {
    hide Parts, UnsignedLength;
    if UnsignedText(t) {
      var i: nat, j: nat :| Parts(t, i, j);
      PartsRead(t, i, j);
    }
    if UnsignedLength(t) == Some(|t|) {
      var i, j := PartsOf(t);
      assert t[..|t|] == t;
    }
  }

  // ------------------------------------------------- every text of it is read

  /** Reading a value begins at the first character that is not blank. */
  lemma SameSkipped(a: Text, b: Text)
    requires SkipSpace(a) == SkipSpace(b)
    ensures ParseValue(a) == ParseValue(b)
  {
    hide SkipSpace, ParseString, ParseItems, ParseMembers, ParseWord, ParseNumber;
  }

  lemma NothingSkipped(t: Text)
    requires t == [] || !Blank(t[0])
    ensures SkipSpace(t) == t
  {
  }

  lemma FirstOf(t: Text, v: Json)
    requires Denotes(t, v)
    ensures t != [] && !Blank(t[0]) && t[0] != 93 && t[0] != 125
  {
    hide ItemsDenote, MembersDenote, CharsDenote;
    if v.Number? {
      NumberTextIff(t);
      FirstOfNumber(t);
    }
  }

  lemma WordParses(t: Text, v: Json, rest: Text)
    requires (v.Null? || v.Bool?) && Denotes(t, v)
    ensures ParseValue(t + rest) == Got(v, rest)
  {
    assert t == Stringify(v);
    ReadWord(v, rest);
  }

  lemma StringParses(t: Text, s: Text, rest: Text)
    requires Quoted(t, s)
    ensures ParseString((t + rest)[1..]) == Got(s, rest) && t[0] == QUOTE
  {
    hide CharsDenote, ParseString;
    var chars := t[1..|t| - 1];
    assert (t + rest)[1..] == chars + ([QUOTE] + rest);
    CharsParse(chars, s, rest);
  }

  /** Begins with a comma or a closing bracket, or is at its end. */
  predicate Separates(rest: Text) {
    rest == [] || rest[0] == COMMA || rest[0] == CLOSE_BRACKET || rest[0] == CLOSE_BRACE
  }

  lemma {:induction false} ValueParses(before: Text, t: Text, v: Json, rest: Text)
    requires Blanks(before) && Denotes(t, v) && EndsNumber(rest)
    ensures ParseValue(before + (t + rest)) == Got(v, rest)
    decreases |t|, 0
  {
    hide ParseValue, ParseString, ParseItems, ParseMembers, CharsDenote, ItemsDenote, MembersDenote, NumberText, SkipSpace, Merge;
    SkipBlanks(before, t + rest);
    SameSkipped(before + (t + rest), t + rest);
    match v
    case Null => WordParses(t, v, rest);
    case Bool(_) => WordParses(t, v, rest);
    case Number(literal) =>
      NumberTextIff(t);
      ReadNumber(literal, rest);
    case String(s) =>
      StringParses(t, s, rest);
      assert t + rest == [QUOTE] + (t + rest)[1..];
      ReadString((t + rest)[1..], s, rest);
    case Array(items) =>
      var body, tail := t[1..|t| - 1], [CLOSE_BRACKET] + rest;
      assert t + rest == [OPEN_BRACKET] + (body + tail);
      if items == [] {
        NoItemsParse(body, rest);
      } else {
        ItemsParse(body, items, rest);
        FirstOfItems(body, items, tail);
        ArrayParses(body + tail, items, rest);
      }
    case Object(members) =>
      var body, tail := t[1..|t| - 1], [CLOSE_BRACE] + rest;
      assert t + rest == [OPEN_BRACE] + (body + tail);
      var list :| Merge(list) == members && MembersDenote(body, list);
      if list == [] {
        NoMembersParse(body, rest);
        MergeNone();
      } else {
        MembersParse(body, list, rest);
        FirstOfMembers(body, list, tail);
        ObjectParses(body + tail, list, rest);
      }
  }

  lemma MergeNone()
    ensures Merge([]) == []
  {
  }

  lemma NoItemsParse(body: Text, rest: Text)
    requires ItemsDenote(body, [])
    ensures ParseValue([OPEN_BRACKET] + (body + ([CLOSE_BRACKET] + rest))) == Got(Array([]), rest)
  {
    hide ParseItems, ParseString, ParseMembers;
    var tail := [CLOSE_BRACKET] + rest;
    SkipBlanks(body, tail);
    assert ([OPEN_BRACKET] + (body + tail))[1..] == body + tail && tail[1..] == rest;
  }

  lemma NoMembersParse(body: Text, rest: Text)
    requires MembersDenote(body, [])
    ensures ParseValue([OPEN_BRACE] + (body + ([CLOSE_BRACE] + rest))) == Got(Object([]), rest)
  {
    hide ParseItems, ParseString, ParseMembers;
    var tail := [CLOSE_BRACE] + rest;
    SkipBlanks(body, tail);
    assert ([OPEN_BRACE] + (body + tail))[1..] == body + tail && tail[1..] == rest;
  }

  lemma ArrayParses(text: Text, items: seq<Json>, rest: Text)
    requires ParseItems(text) == Got(items, rest) && SkipSpace(text) != [] && SkipSpace(text)[0] != CLOSE_BRACKET
    ensures ParseValue([OPEN_BRACKET] + text) == Got(Array(items), rest)
  {
    hide ParseItems, ParseString, ParseMembers;
    NothingSkipped([OPEN_BRACKET] + text);
    assert ([OPEN_BRACKET] + text)[1..] == text;
  }

  lemma ObjectParses(text: Text, list: seq<Member>, rest: Text)
    requires ParseMembers(text) == Got(list, rest) && SkipSpace(text) != [] && SkipSpace(text)[0] != CLOSE_BRACE
    ensures ParseValue([OPEN_BRACE] + text) == Got(Object(Merge(list)), rest)
  {
    hide ParseItems, ParseString, ParseMembers, Merge;
    NothingSkipped([OPEN_BRACE] + text);
    assert ([OPEN_BRACE] + text)[1..] == text;
  }

  /** What begins with the text of a value, blanks aside, begins as the value does. */
  lemma FirstOfPadded(t: Text, v: Json, rest: Text)
    requires Padded(t, v)
    ensures SkipSpace(t + rest) != [] && SkipSpace(t + rest)[0] != CLOSE_BRACKET
  {
    hide Denotes, SkipSpace;
    var i: nat, j: nat :| Within(t, v, i, j);
    FirstOf(t[i..j], v);
    assert t + rest == t[..i] + (t[i..] + rest);
    SkipBlanks(t[..i], t[i..] + rest);
    assert (t[i..] + rest)[0] == t[i..j][0];
    NothingSkipped(t[i..] + rest);
  }

  lemma FirstOfItems(body: Text, items: seq<Json>, rest: Text)
    requires items != [] && ItemsDenote(body, items)
    ensures SkipSpace(body + rest) != [] && SkipSpace(body + rest)[0] != CLOSE_BRACKET
  {
    hide Padded, SkipSpace;
    var k: nat :| ItemUpTo(body, items, k);
    assert body + rest == body[..k] + (body[k..] + rest);
    FirstOfPadded(body[..k], items[0], body[k..] + rest);
  }

  lemma FirstOfMembers(body: Text, members: seq<Member>, rest: Text)
    requires members != [] && MembersDenote(body, members)
    ensures SkipSpace(body + rest) != [] && SkipSpace(body + rest)[0] != CLOSE_BRACE
  {
    hide Padded, SkipSpace, CharsDenote;
    var c: nat, k: nat :| MemberUpTo(body, members, c, k);
    var i: nat, j: nat :| KeyWithin(body[..c], members[0].key, i, j);
    assert body + rest == body[..c][..i] + (body[i..] + rest);
    SkipBlanks(body[..c][..i], body[i..] + rest);
    assert (body[i..] + rest)[0] == body[..c][i..j][0];
    NothingSkipped(body[i..] + rest);
  }

  lemma {:induction false} PaddedParses(t: Text, v: Json, rest: Text)
    requires Padded(t, v) && Separates(rest)
    ensures var r := ParseValue(t + rest); r.Got? && r.value == v && SkipSpace(r.rest) == SkipSpace(rest)
    decreases |t|, 1
  {
    hide ParseValue, Denotes, SkipSpace;
    var i: nat, j: nat :| Within(t, v, i, j);
    var after := t[j..] + rest;
    assert t + rest == t[..i] + (t[i..j] + after);
    assert EndsNumber(after) by {
      if t[j..] == [] { assert after == rest; }
    }
    ValueParses(t[..i], t[i..j], v, after);
    SkipBlanks(t[j..], rest);
  }

  // One step of each reader, with the blanks before the separator.

  lemma LastOfItems(text: Text, v: Json, rest: Text)
    requires ParseValue(text).Got? && ParseValue(text).value == v && SkipSpace(ParseValue(text).rest) == [CLOSE_BRACKET] + rest
    ensures ParseItems(text) == Got([v], rest)
  {
    hide ParseValue;
    assert ([CLOSE_BRACKET] + rest)[1..] == rest;
  }

  lemma NextOfItems(text: Text, v: Json, more: Text)
    requires ParseValue(text).Got? && ParseValue(text).value == v && SkipSpace(ParseValue(text).rest) == [COMMA] + more
    ensures ParseItems(text) == match ParseItems(more) case Fail => Fail case Got(items, rest) => Got([v] + items, rest)
  {
    hide ParseValue;
    assert ([COMMA] + more)[1..] == more;
  }

  lemma {:induction false} ItemsParse(body: Text, items: seq<Json>, rest: Text)
    requires items != [] && ItemsDenote(body, items)
    ensures ParseItems(body + ([CLOSE_BRACKET] + rest)) == Got(items, rest)
    decreases |body|, 2
  {
    hide ParseValue, ParseItems, Padded, SkipSpace;
    var tail := [CLOSE_BRACKET] + rest;
    var k: nat :| ItemUpTo(body, items, k);
    if |items| == 1 {
      assert body[..k] == body && items == [items[0]];
      PaddedParses(body, items[0], tail);
      NothingSkipped(tail);
      LastOfItems(body + tail, items[0], rest);
    } else {
      var more := body[k + 1..] + tail;
      assert body + tail == body[..k] + ([COMMA] + more) && items == [items[0]] + items[1..];
      PaddedParses(body[..k], items[0], [COMMA] + more);
      NothingSkipped([COMMA] + more);
      ItemsParse(body[k + 1..], items[1..], rest);
      NextOfItems(body + tail, items[0], more);
    }
  }

  lemma LastOfMembers(text: Text, m: Member, rest: Text)
    requires ParseMember(text).Got? && ParseMember(text).value == m && SkipSpace(ParseMember(text).rest) == [CLOSE_BRACE] + rest
    ensures ParseMembers(text) == Got([m], rest)
  {
    hide ParseMember;
    assert ([CLOSE_BRACE] + rest)[1..] == rest;
  }

  lemma NextOfMembers(text: Text, m: Member, more: Text)
    requires ParseMember(text).Got? && ParseMember(text).value == m && SkipSpace(ParseMember(text).rest) == [COMMA] + more
    ensures ParseMembers(text) == match ParseMembers(more) case Fail => Fail case Got(ms, rest) => Got([m] + ms, rest)
  {
    hide ParseMember;
    assert ([COMMA] + more)[1..] == more;
  }

  lemma KeyParses(head: Text, key: Text, after: Text)
    requires PaddedKey(head, key)
    ensures var t := SkipSpace(head + ([COLON] + after));
            t != [] && t[0] == QUOTE && ParseString(t[1..]).Got? && ParseString(t[1..]).value == key
            && SkipSpace(ParseString(t[1..]).rest) == [COLON] + after
  {
    hide CharsDenote, SkipSpace, ParseString;
    var i: nat, j: nat :| KeyWithin(head, key, i, j);
    var rest := head[j..] + ([COLON] + after);
    assert head + ([COLON] + after) == head[..i] + (head[i..j] + rest);
    SkipBlanks(head[..i], head[i..j] + rest);
    NothingSkipped(head[i..j] + rest);
    StringParses(head[i..j], key, rest);
    SkipBlanks(head[j..], [COLON] + after);
    NothingSkipped([COLON] + after);
  }

  lemma {:induction false} MemberParses(head: Text, m: Member, t: Text, rest: Text)
    requires PaddedKey(head, m.key) && Padded(t, m.value) && Separates(rest)
    ensures var r := ParseMember(head + ([COLON] + (t + rest))); r.Got? && r.value == m && SkipSpace(r.rest) == SkipSpace(rest)
    decreases |t|, 2
  {
    hide ParseValue, Padded, PaddedKey, ParseString, SkipSpace;
    KeyParses(head, m.key, t + rest);
    PaddedParses(t, m.value, rest);
    assert ([COLON] + (t + rest))[1..] == t + rest;
  }

  lemma {:induction false} MembersParse(body: Text, members: seq<Member>, rest: Text)
    requires members != [] && MembersDenote(body, members)
    ensures ParseMembers(body + ([CLOSE_BRACE] + rest)) == Got(members, rest)
    decreases |body|, 2
  {
    hide ParseMember, ParseMembers, Padded, PaddedKey, SkipSpace;
    var tail := [CLOSE_BRACE] + rest;
    var c: nat, k: nat :| MemberUpTo(body, members, c, k);
    var head, t := body[..c], body[c + 1..k];
    if |members| == 1 {
      assert body + tail == head + ([COLON] + (t + tail)) && members == [members[0]];
      MemberParses(head, members[0], t, tail);
      NothingSkipped(tail);
      LastOfMembers(body + tail, members[0], rest);
    } else {
      var more := body[k + 1..] + tail;
      assert body + tail == head + ([COLON] + (t + ([COMMA] + more))) && members == [members[0]] + members[1..];
      MemberParses(head, members[0], t, [COMMA] + more);
      NothingSkipped([COMMA] + more);
      MembersParse(body[k + 1..], members[1..], rest);
      NextOfMembers(body + tail, members[0], more);
    }
  }

  // ---------------------------------------------- nothing but texts of it are

  lemma {:induction false} ValueParsed(text: Text) returns (i: nat, n: nat)
    requires ParseValue(text).Got?
    ensures i <= n <= |text| && ParseValue(text).rest == text[n..] && Blanks(text[..i])
    ensures Denotes(text[i..n], ParseValue(text).value)
    decreases |text|, 1
  {
    hide ParseValue, Denotes;
    Skipped(text);
    i := |text| - |SkipSpace(text)|;
    NothingSkipped(text[i..]);
    SameSkipped(text, text[i..]);
    var m := TokenParsed(text[i..]);
    n := i + m;
    assert text[i..][..m] == text[i..n] && text[i..][m..] == text[n..];
  }

  lemma {:induction false} TokenParsed(t: Text) returns (m: nat)
    requires ParseValue(t).Got? && (t != [] ==> !Blank(t[0]))
    ensures m <= |t| && ParseValue(t).rest == t[m..] && Denotes(t[..m], ParseValue(t).value)
    decreases |t|, 0
  {
    hide ParseString, ParseItems, ParseMembers, CharsDenote, ItemsDenote, MembersDenote, NumberText, Merge, ParseNumber, ParseWord, SkipSpace;
    hide Blanks, Spells;
    NothingSkipped(t);
    if t[0] == QUOTE {
      var k := CharsParsed(t[1..]);
      m := k + 2;
      QuotedBy(t, k, ParseString(t[1..]).value);
    } else if t[0] == OPEN_BRACKET || t[0] == OPEN_BRACE {
      var q := NextAt(t, 1);
      if q < |t| && t[q] == (if t[0] == OPEN_BRACKET then CLOSE_BRACKET else CLOSE_BRACE) {
        m := q + 1;
        assert t[q..][1..] == t[m..];
        NothingBetween(t, q);
      } else if t[0] == OPEN_BRACKET {
        var k := ItemsParsed(t[1..]);
        m := k + 1;
        BetweenBrackets(t, k, ParseItems(t[1..]).value);
      } else {
        var k := MembersParsed(t[1..]);
        m := k + 1;
        BetweenBraces(t, k, ParseMembers(t[1..]).value);
      }
    } else {
      m := ScalarParsed(t);
    }
  }

  lemma QuotedBy(t: Text, k: nat, s: Text)
    requires k + 1 < |t| && t[0] == 34 && t[1..][k] == 34 && CharsDenote(t[1..][..k], s)
    ensures Quoted(t[..k + 2], s) && t[1..][k + 1..] == t[k + 2..]
  {
    hide CharsDenote;
    assert t[..k + 2][1..k + 1] == t[1..][..k];
  }

  lemma NothingBetween(t: Text, q: nat)
    requires 1 <= q < |t| && Blanks(t[1..q])
    ensures t[0] == 91 && t[q] == 93 ==> Denotes(t[..q + 1], Array([]))
    ensures t[0] == 123 && t[q] == 125 ==> Denotes(t[..q + 1], Object([]))
  {
    assert t[..q + 1][1..q] == t[1..q];
    assert MembersDenote(t[1..q], []) && Merge([]) == [];
  }

  lemma BetweenBrackets(t: Text, k: nat, items: seq<Json>)
    requires 1 <= k < |t| && t[0] == 91 && t[1..][k - 1] == 93 && ItemsDenote(t[1..][..k - 1], items)
    ensures Denotes(t[..k + 1], Array(items)) && t[1..][k..] == t[k + 1..]
  {
    hide ItemsDenote;
    assert t[..k + 1][1..k] == t[1..][..k - 1];
  }

  lemma BetweenBraces(t: Text, k: nat, list: seq<Member>)
    requires 1 <= k < |t| && t[0] == 123 && t[1..][k - 1] == 125 && MembersDenote(t[1..][..k - 1], list)
    ensures Denotes(t[..k + 1], Object(Merge(list))) && t[1..][k..] == t[k + 1..]
  {
    hide MembersDenote, Merge;
    assert t[..k + 1][1..k] == t[1..][..k - 1];
  }

  lemma ScalarParsed(t: Text) returns (m: nat)
    requires ParseValue(t).Got? && t != [] && !Blank(t[0]) && t[0] != QUOTE && t[0] != OPEN_BRACKET && t[0] != OPEN_BRACE
    ensures m <= |t| && ParseValue(t).rest == t[m..] && Denotes(t[..m], ParseValue(t).value)
  {
    hide ParseString, ParseItems, ParseMembers, NumberText, SkipSpace, NumberLength;
    NothingSkipped(t);
    if t[0] == 110 {
      m := 4;
      assert t[..4] == NullText();
    } else if t[0] == 116 {
      m := 4;
      assert t[..4] == TrueText();
    } else if t[0] == 102 {
      m := 5;
      assert t[..5] == FalseText();
    } else {
      m := NumberLength(t).value;
      NumberParsed(t);
    }
  }

  lemma NumberParsed(t: Text)
    requires NumberLength(t).Some?
    ensures NumberText(t[..NumberLength(t).value])
  {
    hide Parts, UnsignedLength;
    var n := NumberLength(t).value;
    if t[0] == 45 {
      var i, j := PartsOf(t[1..]);
      assert t[..n][1..] == t[1..][..n - 1];
    } else {
      var i, j := PartsOf(t);
    }
  }

  lemma PaddedBy(t: Text, v: Json, i: nat, p: nat, q: nat)
    requires i <= p <= q <= |t| && Blanks(t[..i]) && Blanks(t[p..q]) && Denotes(t[i..p], v)
    ensures Padded(t[..q], v)
  {
    hide Denotes;
    assert t[..q][..i] == t[..i] && t[..q][p..] == t[p..q] && t[..q][i..p] == t[i..p];
    assert Within(t[..q], v, i, p);
  }

  /** Where the next character after a rest is. */
  lemma NextAt(text: Text, p: nat) returns (q: nat)
    requires p <= |text|
    ensures p <= q <= |text| && SkipSpace(text[p..]) == text[q..] && Blanks(text[p..q])
  {
    Skipped(text[p..]);
    q := |text| - |SkipSpace(text[p..])|;
    assert text[p..][..q - p] == text[p..q] && text[p..][q - p..] == text[q..];
  }

  lemma {:induction false} ItemsParsed(text: Text) returns (n: nat)
    requires ParseItems(text).Got?
    ensures 1 <= n <= |text| && ParseItems(text).rest == text[n..] && text[n - 1] == CLOSE_BRACKET
    ensures ParseItems(text).value != [] && ItemsDenote(text[..n - 1], ParseItems(text).value)
    decreases |text|, 2
  {
    hide ParseValue, Padded, Denotes, SkipSpace;
    var v := ParseValue(text).value;
    var i, p := ValueParsed(text);
    var q := NextAt(text, p);
    PaddedBy(text, v, i, p, q);
    if text[q] == CLOSE_BRACKET {
      n := q + 1;
      assert text[..q][..q] == text[..q];
      assert ItemUpTo(text[..q], [v], q);
    } else {
      var m := ItemsParsed(text[q + 1..]);
      n := q + 1 + m;
      var items := ParseItems(text[q + 1..]).value;
      assert text[q + 1..][m..] == text[n..] && text[q + 1..][m - 1] == text[n - 1];
      assert text[..n - 1][..q] == text[..q] && text[..n - 1][q + 1..] == text[q + 1..][..m - 1];
      assert ([v] + items)[1..] == items;
      assert ItemUpTo(text[..n - 1], [v] + items, q);
    }
  }

  /** A key and what follows it, up to the colon. */
  lemma KeyParsed(text: Text, rest: Text) returns (c: nat)
    requires var t := SkipSpace(text); t != [] && t[0] == QUOTE && ParseString(t[1..]).Got? && rest == SkipSpace(ParseString(t[1..]).rest)
    ensures c <= |text| && rest == text[c..] && PaddedKey(text[..c], ParseString(SkipSpace(text)[1..]).value)
  {
    hide ParseString, SkipSpace, CharsDenote, Blanks, Quoted;
    var a := NextAt(text, 0);
    assert text[0..] == text && text[0..a] == text[..a];
    var t := text[a..];
    var key := ParseString(t[1..]).value;
    var k := CharsParsed(t[1..]);
    QuotedBy(t, k, key);
    var b := a + 2 + k;
    assert t[k + 2..] == text[b..] && t[..k + 2] == text[a..b];
    c := NextAt(text, b);
    KeyBy(text, key, a, b, c);
  }

  lemma KeyBy(t: Text, key: Text, a: nat, b: nat, c: nat)
    requires a <= b <= c <= |t| && Blanks(t[..a]) && Blanks(t[b..c]) && Quoted(t[a..b], key)
    ensures PaddedKey(t[..c], key)
  {
    hide Blanks, Quoted;
    assert t[..c][..a] == t[..a] && t[..c][b..] == t[b..c] && t[..c][a..b] == t[a..b];
    assert KeyWithin(t[..c], key, a, b);
  }

  lemma {:induction false} MemberParsed(text: Text) returns (c: nat, i: nat, n: nat)
    requires ParseMember(text).Got?
    ensures c < i <= n <= |text| && ParseMember(text).rest == text[n..] && text[c] == COLON
    ensures PaddedKey(text[..c], ParseMember(text).value.key)
    ensures Blanks(text[c + 1..i]) && Denotes(text[i..n], ParseMember(text).value.value)
    decreases |text|, 2
  {
    hide ParseValue, ParseString, Denotes, SkipSpace, CharsDenote, Blanks, PaddedKey;
    c := KeyParsed(text, SkipSpace(ParseString(SkipSpace(text)[1..]).rest));
    var more := text[c + 1..];
    assert text[c..][1..] == more;
    var j, m := ValueParsed(more);
    i, n := c + 1 + j, c + 1 + m;
    assert more[..j] == text[c + 1..i] && more[j..m] == text[i..n] && more[m..] == text[n..];
  }

  lemma {:induction false} MembersParsed(text: Text) returns (n: nat)
    requires ParseMembers(text).Got?
    ensures 1 <= n <= |text| && ParseMembers(text).rest == text[n..] && text[n - 1] == CLOSE_BRACE
    ensures ParseMembers(text).value != [] && MembersDenote(text[..n - 1], ParseMembers(text).value)
    decreases |text|, 3
  {
    hide ParseMember, Padded, PaddedKey, Denotes, SkipSpace, Blanks, MembersDenote;
    var member := ParseMember(text).value;
    var c, i, p := MemberParsed(text);
    var q := NextAt(text, p);
    PaddedBetween(text, member.value, c + 1, i, p, q);
    if text[q] == CLOSE_BRACE {
      n := q + 1;
      assert text[..q][..c] == text[..c] && text[..q][c + 1..] == text[c + 1..q];
      OneMember(text[..q], member, c);
    } else {
      var m := MembersParsed(text[q + 1..]);
      n := q + 1 + m;
      assert text[q + 1..][m..] == text[n..] && text[q + 1..][m - 1] == text[n - 1];
      assert text[..n - 1][..c] == text[..c] && text[..n - 1][c + 1..q] == text[c + 1..q];
      assert text[..n - 1][q + 1..] == text[q + 1..][..m - 1];
      MoreMembers(text[..n - 1], member, ParseMembers(text[q + 1..]).value, c, q);
    }
  }

  lemma OneMember(body: Text, m: Member, c: nat)
    requires c < |body| && PaddedKey(body[..c], m.key) && body[c] == 58 && Padded(body[c + 1..], m.value)
    ensures MembersDenote(body, [m])
  {
    hide Padded, PaddedKey;
    assert body[c + 1..|body|] == body[c + 1..];
    assert MemberUpTo(body, [m], c, |body|);
  }

  lemma MoreMembers(body: Text, m: Member, list: seq<Member>, c: nat, k: nat)
    requires c < k < |body| && PaddedKey(body[..c], m.key) && body[c] == 58 && Padded(body[c + 1..k], m.value)
    requires body[k] == 44 && list != [] && MembersDenote(body[k + 1..], list)
    ensures MembersDenote(body, [m] + list)
  {
    hide Padded, PaddedKey;
    assert ([m] + list)[1..] == list;
    assert MemberUpTo(body, [m] + list, c, k);
  }

  lemma PaddedBetween(t: Text, v: Json, a: nat, i: nat, p: nat, q: nat)
    requires a <= i <= p <= q <= |t| && Blanks(t[a..i]) && Blanks(t[p..q]) && Denotes(t[i..p], v)
    ensures Padded(t[a..q], v)
  {
    hide Denotes, Padded;
    var u := t[a..];
    assert u[..i - a] == t[a..i] && u[p - a..q - a] == t[p..q] && u[i - a..p - a] == t[i..p] && u[..q - a] == t[a..q];
    PaddedBy(u, v, i - a, p - a, q - a);
  }

  // ----------------------------------------------------------- repeated keys

  /** The value that was written last for a key. */
  function LastOf(list: seq<Member>, key: Text): Option<Json> {
    if list == [] then None
    else if list[|list| - 1].key == key then Some(list[|list| - 1].value)
    else LastOf(list[..|list| - 1], key)
  }

  /** The keys, in the order in which they came first. */
  function FirstKeys(list: seq<Member>): seq<Text> {
    if list == [] then []
    else
      var keys, key := FirstKeys(list[..|list| - 1]), list[|list| - 1].key;
      if key in keys then keys else keys + [key]
  }

  function KeyList(members: seq<Member>): (keys: seq<Text>)
    ensures |keys| == |members| && forall i :: 0 <= i < |keys| ==> keys[i] == members[i].key
  {
    if members == [] then [] else [members[0].key] + KeyList(members[1..])
  }

  lemma {:induction false} PutMeans(members: seq<Member>, m: Member, key: Text)
    ensures Lookup(Put(members, m), key) == if key == m.key then Some(m.value) else Lookup(members, key)
    ensures KeyList(Put(members, m)) == if m.key in KeyList(members) then KeyList(members) else KeyList(members) + [m.key]
  {
    if members != [] {
      PutMeans(members[1..], m, key);
      assert KeyList(members) == [members[0].key] + KeyList(members[1..]);
    }
  }

  /** Of a key that is repeated the last value counts, in the place of the first. */
  lemma {:induction false} MergeMeans(list: seq<Member>, key: Text)
    ensures Lookup(Merge(list), key) == LastOf(list, key)
    ensures KeyList(Merge(list)) == FirstKeys(list)
    ensures DistinctKeys(Merge(list))
  {
    hide Put, Lookup;
    if list == [] {
      NothingMerged(key);
    } else {
      var n := |list| - 1;
      MergeMeans(list[..n], key);
      PutMeans(Merge(list[..n]), list[n], key);
    }
    FirstKeysDiffer(list);
    assert forall i :: 0 <= i < |Merge(list)| ==> FirstKeys(list)[i] == Merge(list)[i].key;
  }

  lemma NothingMerged(key: Text)
    ensures Lookup([], key) == None
  {
  }

  lemma {:induction false} FirstKeysDiffer(list: seq<Member>)
    ensures forall i, j :: 0 <= i < j < |FirstKeys(list)| ==> FirstKeys(list)[i] != FirstKeys(list)[j]
  {
    if list != [] { FirstKeysDiffer(list[..|list| - 1]); }
  }

  // ------------------------------------------------------------ the statement

  /** A text parses to a value exactly when it is a text of the grammar, with blanks around it or not, and stands for it. */
  lemma ParseIff(text: Text, v: Json)
    ensures Parse(text) == Some(v) <==> Padded(text, v)
  {
    hide ParseValue, Padded, Denotes;
    if Padded(text, v) {
      PaddedParses(text, v, []);
      assert text + [] == text;
      NothingSkipped([]);
    }
    if Parse(text) == Some(v) {
      var i, n := ValueParsed(text);
      var q := NextAt(text, n);
      PaddedBy(text, v, i, n, q);
      assert text[..q] == text;
    }
  }
}
