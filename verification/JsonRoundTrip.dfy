/**
 What is printed is parsed back, and what printed JSON looks like.

 Reading goes from left to right, so every round trip is stated for a printed
 value with any rest behind it that cannot belong to it: a number must not be
 followed by something that would continue it, while strings, arrays and objects
 bring their own ends.  The statements for values, items and members refer to
 each other as the functions do.

 The second part shows that printed JSON has no control characters in it, since
 strings escape theirs and numbers have none; this is what lets a log hold one
 value a line.
 */
module JsonRoundTrip {
  import opened Optional
  import opened Text
  import opened JsonFormat

  // ----------------------------------------------------------------- strings

  lemma HexRoundTrip(u: Unit, rest: Text)
    ensures ParseHex4(UnicodeEscape(u)[2..] + rest) == Some(u)
  {
    var a, b, c, d := u / 0x1000, u / 0x100 % 16, u / 16 % 16, u % 16;
    assert u / 0x100 == u / 16 / 16 && u / 0x1000 == u / 0x100 / 16;
    assert u == a * 0x1000 + b * 0x100 + c * 16 + d;
    var t := UnicodeEscape(u)[2..] + rest;
    assert t[0] == HexDigit(a) && t[1] == HexDigit(b) && t[2] == HexDigit(c) && t[3] == HexDigit(d);
  }

  lemma RawUnit(u: Unit, rest: Text)
    requires u >= 0x20 && u != QUOTE && u != BACKSLASH
    ensures ParseString([u] + rest) == Cons(u, ParseString(rest))
  {
    assert ([u] + rest)[1..] == rest;
  }

  lemma QuotedUnit(u: Unit, rest: Text)
    ensures ParseString(QuoteUnit(u) + rest) == Cons(u, ParseString(rest))
  {
    var t := QuoteUnit(u) + rest;
    if ShortEscape(u).Some? {
      assert t[2..] == rest;
    } else if u < 0x20 || IsHigh(u) || IsLow(u) {
      HexRoundTrip(u, rest);
      assert t[2..] == UnicodeEscape(u)[2..] + rest;
      assert t[6..] == rest;
    } else {
      RawUnit(u, rest);
    }
  }

  lemma QuotePair(s: Text, tail: Text)
    requires StartsWithPair(s)
    ensures Quote(s) + tail == [s[0]] + ([s[1]] + (Quote(s[2..]) + tail))
  {
  }

  lemma QuoteSingle(s: Text, tail: Text)
    requires s != [] && !StartsWithPair(s)
    ensures Quote(s) + tail == QuoteUnit(s[0]) + (Quote(s[1..]) + tail)
  {
  }

  lemma EmptyString(rest: Text)
    ensures ParseString(Quote([]) + ([QUOTE] + rest)) == Got([], rest)
  {
    assert Quote([]) + ([QUOTE] + rest) == [QUOTE] + rest;
    assert ([QUOTE] + rest)[1..] == rest;
  }

  lemma {:induction false} StringRoundTrip(s: Text, rest: Text)
    ensures ParseString(Quote(s) + ([QUOTE] + rest)) == Got(s, rest)
    decreases |s|
  {
    hide QuoteUnit, ParseString, Quote;
    var tail := [QUOTE] + rest;
    if s == [] {
      EmptyString(rest);
    } else if StartsWithPair(s) {
      var more := Quote(s[2..]) + tail;
      QuotePair(s, tail);
      RawUnit(s[0], [s[1]] + more);
      RawUnit(s[1], more);
      StringRoundTrip(s[2..], rest);
      assert [s[0]] + ([s[1]] + s[2..]) == s;
    } else {
      QuoteSingle(s, tail);
      QuotedUnit(s[0], Quote(s[1..]) + tail);
      StringRoundTrip(s[1..], rest);
      assert [s[0]] + s[1..] == s;
    }
  }

  // ----------------------------------------------------------------- numbers

  /** The text does not prolong a number literal that stands before it. */
  predicate EndsNumber(t: Text) {
    t == [] || !(IsDigit(t[0]) || t[0] == 46 || t[0] == 101 || t[0] == 69)
  }

  lemma {:induction false} DigitRunConcat(a: Text, t: Text)
    requires DigitRun(a) < |a| || EndsNumber(t)
    ensures DigitRun(a + t) == DigitRun(a)
  {
    if a == [] {
      assert a + t == t;
    } else if IsDigit(a[0]) {
      assert (a + t)[1..] == a[1..] + t;
      DigitRunConcat(a[1..], t);
    }
  }

  lemma IntegerConcat(a: Text, t: Text)
    requires EndsNumber(t) && IntegerPart(a).Some?
    ensures IntegerPart(a + t) == IntegerPart(a)
  {
    DigitRunConcat(a, t);
  }

  lemma FractionConcat(a: Text, t: Text)
    requires EndsNumber(t) && FractionPart(a).Some?
    ensures FractionPart(a + t) == FractionPart(a)
  {
    if a == [] {
      assert a + t == t;
    } else {
      assert (a + t)[1..] == a[1..] + t;
      DigitRunConcat(a[1..], t);
    }
  }

  lemma ExponentConcat(a: Text, t: Text)
    requires EndsNumber(t) && ExponentPart(a).Some?
    ensures ExponentPart(a + t) == ExponentPart(a)
  {
    if a == [] {
      assert a + t == t;
    } else if a[0] == 101 || a[0] == 69 {
      assert |a| > 1;
      var sign := if a[1] == 43 || a[1] == 45 then 1 else 0;
      assert (a + t)[1 + sign..] == a[1 + sign..] + t;
      DigitRunConcat(a[1 + sign..], t);
    }
  }

  lemma FractionExponentConcat(a: Text, t: Text)
    requires EndsNumber(t) && FractionExponent(a).Some?
    ensures FractionExponent(a + t) == FractionExponent(a)
  {
    var f := FractionPart(a).value;
    FractionConcat(a, t);
    assert (a + t)[f..] == a[f..] + t;
    ExponentConcat(a[f..], t);
  }

  lemma UnsignedConcat(a: Text, t: Text)
    requires EndsNumber(t) && UnsignedLength(a).Some?
    ensures UnsignedLength(a + t) == UnsignedLength(a)
  {
    var i := IntegerPart(a).value;
    IntegerConcat(a, t);
    assert (a + t)[i..] == a[i..] + t;
    FractionExponentConcat(a[i..], t);
  }

  lemma NumberConcat(a: Text, t: Text)
    requires ValidNumber(a) && EndsNumber(t)
    ensures NumberLength(a + t) == Some(|a|)
  {
    if a[0] == 45 {
      assert (a + t)[1..] == a[1..] + t;
      UnsignedConcat(a[1..], t);
    } else {
      UnsignedConcat(a, t);
    }
  }

  // ------------------------------------------------------------------ objects

  lemma {:induction false} MergeDistinct(members: seq<Member>)
    requires DistinctKeys(members)
    ensures Merge(members) == members
  {
    if members != [] {
      var n := |members| - 1;
      MergeDistinct(members[..n]);
      assert members[n].key !in Keys(members[..n]);
    }
  }

  // ------------------------------------------------------------------- values

  lemma FirstOfStringify(v: Json)
    requires Valid(v)
    ensures Stringify(v) != [] && !IsJsonSpace(Stringify(v)[0])
    ensures Stringify(v)[0] != CLOSE_BRACKET && Stringify(v)[0] != CLOSE_BRACE
  {
  }

  lemma NoSpaceToSkip(t: Text)
    requires t == [] || !IsJsonSpace(t[0])
    ensures SkipSpace(t) == t
  {
  }

  // One step of each recursive reader.

  lemma LastItem(text: Text, v: Json, rest: Text)
    requires ParseValue(text) == Got(v, [CLOSE_BRACKET] + rest)
    ensures ParseItems(text) == Got([v], rest)
  {
    assert ([CLOSE_BRACKET] + rest)[1..] == rest;
  }

  lemma NextItem(text: Text, v: Json, more: Text)
    requires ParseValue(text) == Got(v, [COMMA] + more)
    ensures ParseItems(text) == match ParseItems(more) case Fail => Fail case Got(items, rest) => Got([v] + items, rest)
  {
    assert ([COMMA] + more)[1..] == more;
  }

  lemma LastMember(text: Text, m: Member, rest: Text)
    requires ParseMember(text) == Got(m, [CLOSE_BRACE] + rest)
    ensures ParseMembers(text) == Got([m], rest)
  {
    assert ([CLOSE_BRACE] + rest)[1..] == rest;
  }

  lemma NextMember(text: Text, m: Member, more: Text)
    requires ParseMember(text) == Got(m, [COMMA] + more)
    ensures ParseMembers(text) == match ParseMembers(more) case Fail => Fail case Got(ms, rest) => Got([m] + ms, rest)
  {
    assert ([COMMA] + more)[1..] == more;
  }

  lemma KeyThenValue(body: Text, key: Text, after: Text, v: Json, rest: Text)
    requires ParseString(body) == Got(key, [COLON] + after) && ParseValue(after) == Got(v, rest)
    ensures ParseMember([QUOTE] + body) == Got(Member(key, v), rest)
  {
    assert ([QUOTE] + body)[1..] == body;
    assert ([COLON] + after)[1..] == after;
  }

  lemma ReadString(body: Text, s: Text, rest: Text)
    requires ParseString(body) == Got(s, rest)
    ensures ParseValue([QUOTE] + body) == Got(String(s), rest)
  {
    assert ([QUOTE] + body)[1..] == body;
  }

  lemma ReadArray(body: Text, items: seq<Json>, rest: Text)
    requires body != [] && !IsJsonSpace(body[0])
    requires if items == [] then body == [CLOSE_BRACKET] + rest else body[0] != CLOSE_BRACKET && ParseItems(body) == Got(items, rest)
    ensures ParseValue([OPEN_BRACKET] + body) == Got(Array(items), rest)
  {
    assert ([OPEN_BRACKET] + body)[1..] == body;
    NoSpaceToSkip(body);
    assert ([CLOSE_BRACKET] + rest)[1..] == rest;
  }

  lemma ReadObject(body: Text, members: seq<Member>, rest: Text)
    requires body != [] && !IsJsonSpace(body[0]) && DistinctKeys(members)
    requires if members == [] then body == [CLOSE_BRACE] + rest else body[0] != CLOSE_BRACE && ParseMembers(body) == Got(members, rest)
    ensures ParseValue([OPEN_BRACE] + body) == Got(Object(members), rest)
  {
    assert ([OPEN_BRACE] + body)[1..] == body;
    NoSpaceToSkip(body);
    assert ([CLOSE_BRACE] + rest)[1..] == rest;
    MergeDistinct(members);
  }

  lemma FirstOfNumber(t: Text)
    requires NumberLength(t).Some?
    ensures t[0] == 45 || IsDigit(t[0])
  {
  }

  lemma DispatchNumber(t: Text)
    requires t != [] && (t[0] == 45 || IsDigit(t[0]))
    ensures ParseValue(t) == ParseNumber(t)
  {
    hide ParseString, ParseItems, ParseMembers, ParseNumber, ParseWord;
    NoSpaceToSkip(t);
  }

  lemma ReadNumber(literal: Text, rest: Text)
    requires ValidNumber(literal) && EndsNumber(rest)
    ensures ParseValue(literal + rest) == Got(Number(literal), rest)
  {
    var t := literal + rest;
    FirstOfNumber(literal);
    assert t[0] == literal[0];
    DispatchNumber(t);
    NumberConcat(literal, rest);
    assert t[..|literal|] == literal && t[|literal|..] == rest;
  }

  lemma ReadWord(v: Json, rest: Text)
    requires v.Null? || v.Bool?
    ensures ParseValue(Stringify(v) + rest) == Got(v, rest)
  {
    var t := Stringify(v) + rest;
    FirstOfStringify(v);
    NoSpaceToSkip(t);
    assert t[|Stringify(v)|..] == rest;
  }

  lemma {:induction false} ValueRoundTrip(v: Json, rest: Text)
    requires Valid(v) && EndsNumber(rest)
    ensures ParseValue(Stringify(v) + rest) == Got(v, rest)
    decreases v, 1
  {
    match v
    case Null => ReadWord(v, rest);
    case Bool(b) => ReadWord(v, rest);
    case Number(literal) => ReadNumber(literal, rest);
    case String(s) =>
      var body := Quote(s) + ([QUOTE] + rest);
      StringRoundTrip(s, rest);
      ReadString(body, s, rest);
      assert Stringify(v) + rest == [QUOTE] + body;
    case Array(items) => ArrayRoundTrip(v, items, rest);
    case Object(members) => ObjectRoundTrip(v, members, rest);
  }

  lemma {:induction false} ArrayRoundTrip(v: Json, items: seq<Json>, rest: Text)
    requires v == Array(items) && Valid(v)
    ensures ParseValue(Stringify(v) + rest) == Got(v, rest)
    decreases v, 0
  {
    hide ParseValue, ParseItems;
    var tail := [CLOSE_BRACKET] + rest;
    var body := StringifyItems(items) + tail;
    if items == [] {
      assert body == tail;
    } else {
      ItemsRoundTrip(items, rest);
      FirstOfStringify(items[0]);
      assert body[0] == Stringify(items[0])[0];
    }
    ReadArray(body, items, rest);
    assert Stringify(v) + rest == [OPEN_BRACKET] + body;
  }

  lemma Regroup(a: Text, sep: Unit, b: Text, tail: Text)
    ensures (a + ([sep] + b)) + tail == a + ([sep] + (b + tail))
  {
  }

  lemma ItemsUnfold(items: seq<Json>, tail: Text)
    requires items != []
    ensures StringifyItems(items) + tail ==
            Stringify(items[0]) + (if |items| == 1 then tail else [COMMA] + (StringifyItems(items[1..]) + tail))
  {
    if |items| == 1 {
      assert Stringify(items[0]) + [] == Stringify(items[0]);
    } else {
      Regroup(Stringify(items[0]), COMMA, StringifyItems(items[1..]), tail);
    }
  }

  lemma MembersUnfold(members: seq<Member>, tail: Text)
    requires members != []
    ensures StringifyMembers(members) + tail ==
            StringifyMember(members[0]) + (if |members| == 1 then tail else [COMMA] + (StringifyMembers(members[1..]) + tail))
  {
    if |members| == 1 {
      assert StringifyMember(members[0]) + [] == StringifyMember(members[0]);
    } else {
      Regroup(StringifyMember(members[0]), COMMA, StringifyMembers(members[1..]), tail);
    }
  }

  lemma OneItem(items: seq<Json>, rest: Text)
    requires |items| == 1
    requires ParseValue(Stringify(items[0]) + ([CLOSE_BRACKET] + rest)) == Got(items[0], [CLOSE_BRACKET] + rest)
    ensures ParseItems(StringifyItems(items) + ([CLOSE_BRACKET] + rest)) == Got(items, rest)
  {
    hide ParseValue, ParseItems, Stringify, StringifyItems;
    var tail := [CLOSE_BRACKET] + rest;
    ItemsUnfold(items, tail);
    LastItem(Stringify(items[0]) + tail, items[0], rest);
    assert [items[0]] == items;
  }

  lemma MoreItems(items: seq<Json>, rest: Text)
    requires |items| > 1
    requires var more := StringifyItems(items[1..]) + ([CLOSE_BRACKET] + rest);
             && ParseValue(Stringify(items[0]) + ([COMMA] + more)) == Got(items[0], [COMMA] + more)
             && ParseItems(more) == Got(items[1..], rest)
    ensures ParseItems(StringifyItems(items) + ([CLOSE_BRACKET] + rest)) == Got(items, rest)
  {
    hide ParseValue, ParseItems, Stringify, StringifyItems;
    var tail := [CLOSE_BRACKET] + rest;
    var more := StringifyItems(items[1..]) + tail;
    ItemsUnfold(items, tail);
    NextItem(Stringify(items[0]) + ([COMMA] + more), items[0], more);
    assert [items[0]] + items[1..] == items;
  }

  lemma {:induction false} ItemsRoundTrip(items: seq<Json>, rest: Text)
    requires items != [] && forall i :: 0 <= i < |items| ==> Valid(items[i])
    ensures ParseItems(StringifyItems(items) + ([CLOSE_BRACKET] + rest)) == Got(items, rest)
    decreases items, 0
  {
    hide ParseValue, ParseItems, Stringify, StringifyItems, Valid;
    if |items| == 1 {
      ValueRoundTrip(items[0], [CLOSE_BRACKET] + rest);
      OneItem(items, rest);
    } else {
      ValueRoundTrip(items[0], [COMMA] + (StringifyItems(items[1..]) + ([CLOSE_BRACKET] + rest)));
      assert forall i :: 0 <= i < |items| - 1 ==> items[1..][i] == items[i + 1];
      ItemsRoundTrip(items[1..], rest);
      MoreItems(items, rest);
    }
  }

  lemma MemberUnfold(key: Text, value: Text, rest: Text)
    ensures ([QUOTE] + key + [QUOTE]) + [COLON] + value + rest == [QUOTE] + (key + ([QUOTE] + ([COLON] + (value + rest))))
  {
  }

  lemma {:induction false} MemberRoundTrip(m: Member, rest: Text)
    requires Valid(m.value) && EndsNumber(rest)
    ensures ParseMember(StringifyMember(m) + rest) == Got(m, rest)
    decreases m, 2
  {
    hide ParseMember, ParseValue, ParseString, Quote, Stringify;
    var after := Stringify(m.value) + rest;
    var body := Quote(m.key) + ([QUOTE] + ([COLON] + after));
    StringRoundTrip(m.key, [COLON] + after);
    ValueRoundTrip(m.value, rest);
    KeyThenValue(body, m.key, after, m.value, rest);
    MemberUnfold(Quote(m.key), Stringify(m.value), rest);
  }

  lemma FirstOfMembers(members: seq<Member>)
    requires members != []
    ensures StringifyMembers(members) != [] && StringifyMembers(members)[0] == QUOTE
  {
    var m := StringifyMember(members[0]);
    assert m[0] == QUOTE;
  }

  lemma {:induction false} ObjectRoundTrip(v: Json, members: seq<Member>, rest: Text)
    requires v == Object(members) && Valid(v)
    ensures ParseValue(Stringify(v) + rest) == Got(v, rest)
    decreases v, 0
  {
    hide ParseValue, ParseMembers;
    var tail := [CLOSE_BRACE] + rest;
    var body := StringifyMembers(members) + tail;
    if members == [] {
      assert body == tail;
    } else {
      MembersRoundTrip(members, rest);
      FirstOfMembers(members);
      assert body[0] == StringifyMembers(members)[0];
    }
    ReadObject(body, members, rest);
    assert Stringify(v) + rest == [OPEN_BRACE] + body;
  }

  lemma {:induction false} MembersRoundTrip(members: seq<Member>, rest: Text)
    requires members != [] && forall i :: 0 <= i < |members| ==> Valid(members[i].value)
    ensures ParseMembers(StringifyMembers(members) + ([CLOSE_BRACE] + rest)) == Got(members, rest)
    decreases members, 0
  {
    hide ParseMember, ParseMembers, StringifyMember, StringifyMembers;
    var tail := [CLOSE_BRACE] + rest;
    var text := StringifyMembers(members) + tail;
    MembersUnfold(members, tail);
    if |members| == 1 {
      MemberRoundTrip(members[0], tail);
      LastMember(text, members[0], rest);
      assert [members[0]] == members;
    } else {
      var more := StringifyMembers(members[1..]) + tail;
      MemberRoundTrip(members[0], [COMMA] + more);
      NextMember(text, members[0], more);
      MembersRoundTrip(members[1..], rest);
      assert [members[0]] + members[1..] == members;
    }
  }

  /** `JSON.parse(JSON.stringify(v))` is `v`. */
  lemma ParseStringify(v: Json)
    requires Valid(v)
    ensures Parse(Stringify(v)) == Some(v)
  {
    assert Stringify(v) + [] == Stringify(v);
    ValueRoundTrip(v, []);
  }

  // ------------------------------------------------- what printed JSON is like

  predicate Visible(t: Text) {
    forall i :: 0 <= i < |t| ==> t[i] >= 0x20
  }

  /** Printed without control characters, and with every surrogate paired. */
  predicate Clean(t: Text) {
    Visible(t) && WellFormed(t)
  }

  lemma CleanConcat(a: Text, b: Text)
    requires Clean(a) && Clean(b)
    ensures Clean(a + b)
  {
    WellFormedConcat(a, b);
  }

  lemma CleanAscii(t: Text)
    requires forall i :: 0 <= i < |t| ==> 0x20 <= t[i] < 0x80
    ensures Clean(t)
  {
    NoSurrogatesWellFormed(t);
  }

  lemma CleanUnit(u: Unit)
    requires 0x20 <= u && !IsHigh(u) && !IsLow(u)
    ensures Clean([u])
  {
    NoSurrogatesWellFormed([u]);
  }

  lemma CleanQuoteUnit(u: Unit)
    ensures Clean(QuoteUnit(u))
  {
    if ShortEscape(u).Some? || u < 0x20 || IsHigh(u) || IsLow(u) {
      CleanAscii(QuoteUnit(u));
    } else {
      CleanUnit(u);
    }
  }

  lemma {:induction false} CleanQuote(s: Text)
    ensures Clean(Quote(s))
    decreases |s|
  {
    if s == [] {
    } else if StartsWithPair(s) {
      CleanQuote(s[2..]);
      assert s[..2][2..] == [];
      CleanConcat(s[..2], Quote(s[2..]));
    } else {
      CleanQuote(s[1..]);
      CleanQuoteUnit(s[0]);
      CleanConcat(QuoteUnit(s[0]), Quote(s[1..]));
    }
  }

  lemma CleanString(s: Text)
    ensures Clean(StringifyText(s))
  {
    CleanQuote(s);
    CleanUnit(QUOTE);
    CleanConcat([QUOTE], Quote(s));
    CleanConcat([QUOTE] + Quote(s), [QUOTE]);
  }

  lemma {:induction false} DigitRunIsDigits(t: Text)
    ensures forall i :: 0 <= i < DigitRun(t) ==> IsDigit(t[i])
  {
    if t != [] && IsDigit(t[0]) {
      DigitRunIsDigits(t[1..]);
      assert forall i :: 0 < i < DigitRun(t) ==> t[i] == t[1..][i - 1];
    }
  }

  predicate NumberUnit(u: Unit) {
    IsDigit(u) || u == 43 || u == 45 || u == 46 || u == 69 || u == 101
  }

  predicate NumberUnits(t: Text, n: nat)
    requires n <= |t|
  {
    forall i :: 0 <= i < n ==> NumberUnit(t[i])
  }

  lemma RunAfter(t: Text, at: nat)
    requires at <= |t| && NumberUnits(t, at)
    ensures NumberUnits(t, at + DigitRun(t[at..]))
  {
    DigitRunIsDigits(t[at..]);
    assert forall i :: at <= i < at + DigitRun(t[at..]) ==> t[i] == t[at..][i - at];
  }

  lemma PartsAfter(t: Text, at: nat, n: nat)
    requires at <= |t| && n <= |t[at..]| && NumberUnits(t, at) && NumberUnits(t[at..], n)
    ensures NumberUnits(t, at + n)
  {
    assert forall i :: at <= i < at + n ==> t[i] == t[at..][i - at];
  }

  lemma ExponentUnits(t: Text)
    requires ExponentPart(t).Some?
    ensures NumberUnits(t, ExponentPart(t).value)
  {
    if |t| > 1 && (t[0] == 101 || t[0] == 69) {
      RunAfter(t, if t[1] == 43 || t[1] == 45 then 2 else 1);
    }
  }

  lemma FractionExponentUnits(t: Text)
    requires FractionExponent(t).Some?
    ensures NumberUnits(t, FractionExponent(t).value)
  {
    var f := FractionPart(t).value;
    if f > 0 { RunAfter(t, 1); }
    ExponentUnits(t[f..]);
    PartsAfter(t, f, ExponentPart(t[f..]).value);
  }

  lemma UnsignedUnits(t: Text)
    requires UnsignedLength(t).Some?
    ensures NumberUnits(t, UnsignedLength(t).value)
  {
    var i := IntegerPart(t).value;
    RunAfter(t, 0);
    assert t[0..] == t;
    FractionExponentUnits(t[i..]);
    PartsAfter(t, i, FractionExponent(t[i..]).value);
  }

  lemma CleanNumber(t: Text)
    requires ValidNumber(t)
    ensures Clean(t)
  {
    if t[0] == 45 {
      UnsignedUnits(t[1..]);
      PartsAfter(t, 1, |t| - 1);
    } else {
      UnsignedUnits(t);
    }
    assert NumberUnits(t, |t|);
    CleanAscii(t);
  }

  lemma CleanWrapped(open: Unit, t: Text, close: Unit)
    requires 0x20 <= open < 0x80 && 0x20 <= close < 0x80 && Clean(t)
    ensures Clean([open] + t + [close])
  {
    CleanUnit(open);
    CleanUnit(close);
    CleanConcat([open], t);
    CleanConcat([open] + t, [close]);
  }

  lemma {:induction false} CleanStringify(v: Json)
    requires Valid(v)
    ensures Clean(Stringify(v))
    decreases v, 1
  {
    match v
    case Null => CleanAscii(NullText());
    case Bool(b) => CleanAscii(if b then TrueText() else FalseText());
    case Number(literal) => CleanNumber(literal);
    case String(s) => CleanString(s);
    case Array(items) =>
      CleanItems(items);
      CleanWrapped(OPEN_BRACKET, StringifyItems(items), CLOSE_BRACKET);
    case Object(members) =>
      CleanMembers(members);
      CleanWrapped(OPEN_BRACE, StringifyMembers(members), CLOSE_BRACE);
  }

  lemma {:induction false} CleanItems(items: seq<Json>)
    requires forall i :: 0 <= i < |items| ==> Valid(items[i])
    ensures Clean(StringifyItems(items))
    decreases items, 0
  {
    if items != [] {
      CleanStringify(items[0]);
      CleanItems(items[1..]);
      CleanUnit(COMMA);
      CleanConcat([COMMA], StringifyItems(items[1..]));
      CleanConcat(Stringify(items[0]), if |items| == 1 then [] else [COMMA] + StringifyItems(items[1..]));
    }
  }

  lemma {:induction false} CleanMembers(members: seq<Member>)
    requires forall i :: 0 <= i < |members| ==> Valid(members[i].value)
    ensures Clean(StringifyMembers(members))
    decreases members, 0
  {
    if members != [] {
      CleanStringify(members[0].value);
      CleanString(members[0].key);
      CleanUnit(COLON);
      CleanConcat(StringifyText(members[0].key), [COLON]);
      CleanConcat(StringifyText(members[0].key) + [COLON], Stringify(members[0].value));
      CleanMembers(members[1..]);
      CleanUnit(COMMA);
      CleanConcat([COMMA], StringifyMembers(members[1..]));
      CleanConcat(StringifyMember(members[0]), if |members| == 1 then [] else [COMMA] + StringifyMembers(members[1..]));
    }
  }
}
