/** Byte limits on output: `packages/tekmemo-mcp-server/src/utils/limits.ts`. */
module OutputLimits {
  import opened Optional
  import opened Text
  import opened Utf8

  datatype Error = LimitTooSmall

  // ------------------------------------------------------------------ notice

  function Decimal(n: int): Text {
    if n < 0 then [45] + Digits(-n) else Digits(n)
  }

  function NoticeHead(): Text {
    [10, 10] + Ascii("[Output truncated by @tekbreed/tekmemo/mcp: ")
  }

  /** The truncation notice appended to what is kept. */
  function Suffix(bytes: nat, maxBytes: int, operation: Text): (t: Text)
    ensures t != [] && t[0] == 10
  {
    NoticeHead() + Digits(bytes) + Ascii(" bytes exceeded ") + Decimal(maxBytes) + Ascii(" bytes for ") + operation + Ascii(".]")
  }

  // ----------------------------------------------------------- specification

  /** The length of the longest prefix of at most `budget` bytes. */
  function LongestPrefix(text: Text, budget: nat): (k: nat)
    ensures k <= |text| && ByteLength(text[..k]) <= budget
  {
    assert text[..|text|] == text;
    if ByteLength(text) <= budget then |text|
    else
      var shorter := text[..|text| - 1];
      var k := LongestPrefix(shorter, budget);
      assert shorter[..k] == text[..k];
      k
  }

  /** What `enforceOutputLimit` returns. */
  function Limited(text: Text, maxBytes: int, operation: Text): Result<Text, Error> {
    var suffix := Suffix(ByteLength(text), maxBytes, operation);
    if ByteLength(text) <= maxBytes then Ok(text)
    else if ByteLength(suffix) >= maxBytes then Err(LimitTooSmall)
    else Ok(text[..LongestPrefix(text, maxBytes - ByteLength(suffix))] + suffix)
  }

  /** No longer prefix fits. */
  lemma {:induction false} LongestIsLongest(text: Text, budget: nat, j: nat)
    requires j <= |text| && ByteLength(text[..j]) <= budget
    ensures j <= LongestPrefix(text, budget)
  {
    if ByteLength(text) > budget {
      assert text[..|text|] == text;
      assert j < |text|;
      assert text[..|text| - 1][..j] == text[..j];
      LongestIsLongest(text[..|text| - 1], budget, j);
    }
  }

  /** Shortening the text first, but not below its longest prefix, changes nothing. */
  lemma {:induction false} LongestOfShortened(text: Text, budget: nat, m: nat)
    requires LongestPrefix(text, budget) <= m <= |text|
    ensures LongestPrefix(text[..m], budget) == LongestPrefix(text, budget)
  {
    if m < |text| {
      if ByteLength(text) > budget {
        var shorter := text[..|text| - 1];
        assert shorter[..m] == text[..m];
        LongestOfShortened(shorter, budget, m);
      }
    } else {
      assert text[..m] == text;
    }
  }

  /** A text has no fewer bytes than units. */
  lemma UnitsAtMostBytes(text: Text, k: nat)
    requires k <= |text|
    ensures k <= ByteLength(text[..k])
  {
    PrefixShorter(text, 0, k);
  }

  // -------------------------------------------------------------- the method

  method EnforceOutputLimit(text: Text, maxBytes: int, operation: Text) returns (r: Result<Text, Error>)
    ensures r == Limited(text, maxBytes, operation)
  {
    var bytes := ByteLength(text);
    if bytes <= maxBytes {
      return Ok(text);
    }
    var suffix := Suffix(bytes, maxBytes, operation);
    var suffixBytes := ByteLength(suffix);
    if suffixBytes >= maxBytes {
      return Err(LimitTooSmall);
    }
    var budget: nat := maxBytes - suffixBytes;
    var start := if budget < |text| then budget else |text|;
    UnitsAtMostBytes(text, LongestPrefix(text, budget));
    LongestOfShortened(text, budget, start);
    var slice := text[..start];
    while ByteLength(slice) + suffixBytes > maxBytes
      invariant |slice| <= |text| && slice == text[..|slice|]
      invariant LongestPrefix(slice, budget) == LongestPrefix(text, budget)
      decreases |slice|
    {
      slice := slice[..|slice| - 1];
    }
    return Ok(slice + suffix);
  }

  // ------------------------------------------------------------- guarantees

  lemma BytesOfParts(text: Text, suffix: Text)
    requires suffix != [] && suffix[0] == 10
    ensures ByteLength(text + suffix) == ByteLength(text) + ByteLength(suffix)
  {
    EncodeConcat(text, suffix);
  }

  /** A text is refused exactly when it is too long and the notice would leave no byte of it. */
  lemma RefusedIff(text: Text, maxBytes: int, operation: Text)
    ensures Limited(text, maxBytes, operation).Err? <==>
              ByteLength(text) > maxBytes && maxBytes - ByteLength(Suffix(ByteLength(text), maxBytes, operation)) < 1
    ensures Limited(text, maxBytes, operation).Ok? && ByteLength(text) <= maxBytes ==> Limited(text, maxBytes, operation).value == text
  {
    hide Suffix, LongestPrefix, Encode, ByteLength;
  }

  /** The notice word by word: how long the text was, how long it may be, and of which operation it is. */
  lemma NoticeSpelled(bytes: nat, maxBytes: int, operation: Text) returns (a: Text, b: Text, c: Text, d: Text)
    ensures Suffix(bytes, maxBytes, operation) == [10, 10] + a + Digits(bytes) + b + Decimal(maxBytes) + c + operation + d
    ensures Spells(a, "[Output truncated by @tekbreed/tekmemo/mcp: ") && Spells(b, " bytes exceeded ")
    ensures Spells(c, " bytes for ") && Spells(d, ".]")
  {
    a, b, c, d := NoticeHead()[2..], Ascii(" bytes exceeded "), Ascii(" bytes for "), Ascii(".]");
    hide Digits, Decimal;
  }

  /** The result never has more than `maxBytes` bytes. */
  lemma WithinLimit(text: Text, maxBytes: int, operation: Text)
    requires Limited(text, maxBytes, operation).Ok?
    ensures ByteLength(Limited(text, maxBytes, operation).value) <= maxBytes
  {
    hide Suffix, LongestPrefix, Encode, ByteLength;
    var suffix := Suffix(ByteLength(text), maxBytes, operation);
    if ByteLength(text) > maxBytes {
      BytesOfParts(text[..LongestPrefix(text, maxBytes - ByteLength(suffix))], suffix);
    }
  }

  /** A truncated result keeps a prefix, and any longer prefix would not fit with the notice. */
  lemma KeepsTheMost(text: Text, maxBytes: int, operation: Text) returns (k: nat)
    requires Limited(text, maxBytes, operation).Ok? && ByteLength(text) > maxBytes
    ensures var suffix := Suffix(ByteLength(text), maxBytes, operation);
            && k < |text|
            && Limited(text, maxBytes, operation).value == text[..k] + suffix
            && forall j :: k < j <= |text| ==> ByteLength(text[..j] + suffix) > maxBytes
  {
    hide Suffix, LongestPrefix, Encode, ByteLength;
    var suffix := Suffix(ByteLength(text), maxBytes, operation);
    var budget := maxBytes - ByteLength(suffix);
    k := LongestPrefix(text, budget);
    assert text[..|text|] == text;
    forall j | k < j <= |text|
      ensures ByteLength(text[..j] + suffix) > maxBytes
    {
      BytesOfParts(text[..j], suffix);
      if ByteLength(text[..j]) <= budget { LongestIsLongest(text, budget, j); }
    }
  }

  /** Applied again, the limit changes nothing. */
  lemma LimitIdempotent(text: Text, maxBytes: int, operation: Text)
    requires Limited(text, maxBytes, operation).Ok?
    ensures Limited(Limited(text, maxBytes, operation).value, maxBytes, operation) == Limited(text, maxBytes, operation)
  {
    WithinLimit(text, maxBytes, operation);
  }

  lemma SplitBudget(text: Text, budget: nat, i: nat)
    requires i + 1 < |text| && IsHigh(text[i]) && IsLow(text[i + 1])
    ensures LongestPrefix(text, budget) == i + 1 <==> ByteLength(text[..i]) + 3 == budget
  {
    assert text[..i + 1] == text[..i] + [text[i]];
    assert text[..i + 2] == text[..i + 1] + [text[i + 1]];
    ByteLengthSnoc(text[..i], text[i]);
    ByteLengthSnoc(text[..i + 1], text[i + 1]);
    var k := LongestPrefix(text, budget);
    if ByteLength(text[..i]) + 3 == budget {
      LongestIsLongest(text, budget, i + 1);
      if k > i + 1 { PrefixShorter(text, i + 2, k); }
    }
    if k == i + 1 && ByteLength(text[..i + 2]) <= budget {
      LongestIsLongest(text, budget, i + 2);
    }
  }

  /**
   The cut may fall inside a surrogate pair: what is returned ends with the first
   half of the pair at `i`, and the notice, exactly when the notice leaves three
   bytes for its four.
   */
  lemma PairIsSplit(text: Text, maxBytes: int, operation: Text, i: nat)
    requires i + 1 < |text| && IsHigh(text[i]) && IsLow(text[i + 1])
    requires Limited(text, maxBytes, operation).Ok? && ByteLength(text) > maxBytes
    ensures var suffix := Suffix(ByteLength(text), maxBytes, operation);
            Limited(text, maxBytes, operation).value == text[..i + 1] + suffix
            <==> ByteLength(text[..i]) + 3 + ByteLength(suffix) == maxBytes
  {
    hide Suffix, LongestPrefix, Encode, ByteLength;
    var suffix := Suffix(ByteLength(text), maxBytes, operation);
    var budget := maxBytes - ByteLength(suffix);
    SplitBudget(text, budget, i);
    var k := LongestPrefix(text, budget);
    assert |text[..k] + suffix| == k + |suffix| && |text[..i + 1] + suffix| == i + 1 + |suffix|;
  }

  /** `n` times the letter a. */
  function Letters(n: nat): Text {
    seq(n, _ => 97)
  }

  lemma {:induction false} LettersBytes(n: nat)
    ensures ByteLength(Letters(n)) == n
  {
    hide ByteLength;
    if n == 0 {
      assert Letters(0) == [];
      assert ByteLength([]) == 0 by { NoBytes(); }
    } else {
      LettersBytes(n - 1);
      assert Letters(n) == Letters(n - 1) + [97];
      ByteLengthSnoc(Letters(n - 1), 97);
    }
  }

  lemma NoBytes()
    ensures ByteLength([]) == 0
  {
  }

  /** Letters, one surrogate pair at `m`, and letters again. */
  function WithPair(m: nat, n: nat): Text {
    Letters(m) + [0xD83D, 0xDE00] + Letters(n)
  }

  lemma WithPairBytes(m: nat, n: nat)
    ensures ByteLength(WithPair(m, n)) == m + n + 4 && WithPair(m, n)[..m] == Letters(m) && WellFormed(WithPair(m, n))
  {
    hide ByteLength;
    LettersBytes(m);
    assert WithPair(m, n) == (Letters(m) + [0xD83D, 0xDE00]) + Letters(n);
    assert Letters(m) + [0xD83D, 0xDE00] == Letters(m) + [0xD83D] + [0xDE00];
    ByteLengthSnoc(Letters(m), 0xD83D);
    ByteLengthSnoc(Letters(m) + [0xD83D], 0xDE00);
    LettersAfter(Letters(m) + [0xD83D, 0xDE00], n);
    NoSurrogatesWellFormed(Letters(m));
    NoSurrogatesWellFormed(Letters(n));
    WellFormedConcat(Letters(m), [0xD83D, 0xDE00]);
    WellFormedConcat(Letters(m) + [0xD83D, 0xDE00], Letters(n));
  }

  lemma {:induction false} LettersAfter(text: Text, n: nat)
    ensures ByteLength(text + Letters(n)) == ByteLength(text) + n
  {
    hide ByteLength;
    if n == 0 {
      assert text + Letters(0) == text;
    } else {
      LettersAfter(text, n - 1);
      assert text + Letters(n) == text + Letters(n - 1) + [97];
      ByteLengthSnoc(text + Letters(n - 1), 97);
    }
  }

  lemma {:induction false} LoneHighIsIllFormed(m: nat, rest: Text)
    requires rest != [] && !IsLow(rest[0])
    ensures !WellFormed(Letters(m) + [0xD83D] + rest)
  {
    var text := Letters(m) + [0xD83D] + rest;
    if m > 0 {
      LoneHighIsIllFormed(m - 1, rest);
      assert text[1..] == Letters(m - 1) + [0xD83D] + rest;
    }
  }

  /** Under every limit with room for three bytes and the notice, some well-formed text comes out ill-formed. */
  lemma SomePairIsSplit(maxBytes: nat, operation: Text) returns (text: Text)
    requires ByteLength(Suffix(maxBytes + 4, maxBytes, operation)) + 3 <= maxBytes
    ensures WellFormed(text) && Limited(text, maxBytes, operation).Ok? && !WellFormed(Limited(text, maxBytes, operation).value)
  {
    hide Suffix, LongestPrefix, Encode, ByteLength, Limited, WellFormed;
    var suffix := Suffix(maxBytes + 4, maxBytes, operation);
    var m := maxBytes - 3 - ByteLength(suffix);
    text := WithPair(m, maxBytes - m);
    WithPairBytes(m, maxBytes - m);
    LettersBytes(m);
    assert Limited(text, maxBytes, operation).Ok? by { RoomForNotice(text, maxBytes, operation); }
    PairIsSplit(text, maxBytes, operation, m);
    assert text[..m + 1] == Letters(m) + [0xD83D];
    LoneHighIsIllFormed(m, suffix);
  }

  lemma RoomForNotice(text: Text, maxBytes: int, operation: Text)
    requires ByteLength(Suffix(ByteLength(text), maxBytes, operation)) < maxBytes
    ensures Limited(text, maxBytes, operation).Ok?
  {
    hide Suffix, LongestPrefix, ByteLength;
  }

  // ------------------------------------------------------------ tool results

  /** `rest` stands for the fields the limit does not look at. */
  datatype Item<R> = TextItem(text: Text, rest: R) | OtherItem(rest: R)

  datatype ToolResult<R> = ToolResult(content: seq<Item<R>>, rest: R)

  function LimitedItem<R>(item: Item<R>, maxBytes: int, operation: Text): Result<Item<R>, Error> {
    match item
    case OtherItem(_) => Ok(item)
    case TextItem(text, rest) =>
      match Limited(text, maxBytes, operation)
      case Err(e) => Err(e)
      case Ok(t) => Ok(TextItem(t, rest))
  }

  function LimitedItems<R>(items: seq<Item<R>>, maxBytes: int, operation: Text): (r: Result<seq<Item<R>>, Error>)
    ensures r.Ok? ==> |r.value| == |items|
  {
    if items == [] then Ok([])
    else
      var n := |items| - 1;
      match (LimitedItems(items[..n], maxBytes, operation), LimitedItem(items[n], maxBytes, operation))
      case (Ok(done), Ok(item)) => Ok(done + [item])
      case _ => Err(LimitTooSmall)
  }

  function LimitedResult<R>(result: ToolResult<R>, maxBytes: int, operation: Text): Result<ToolResult<R>, Error> {
    match LimitedItems(result.content, maxBytes, operation)
    case Err(e) => Err(e)
    case Ok(content) => Ok(result.(content := content))
  }

  lemma {:induction false} FailsBeyond<R>(items: seq<Item<R>>, k: nat, maxBytes: int, operation: Text)
    requires k < |items| && LimitedItem(items[k], maxBytes, operation).Err?
    ensures LimitedItems(items, maxBytes, operation) == Err(LimitTooSmall)
  {
    if k < |items| - 1 { FailsBeyond(items[..|items| - 1], k, maxBytes, operation); }
  }

  /** One more item, limited by itself. */
  lemma NextLimited<R>(items: seq<Item<R>>, i: nat, done: seq<Item<R>>, item: Item<R>, maxBytes: int, operation: Text)
    requires i < |items| && LimitedItems(items[..i], maxBytes, operation) == Ok(done) && LimitedItem(items[i], maxBytes, operation) == Ok(item)
    ensures LimitedItems(items[..i + 1], maxBytes, operation) == Ok(done + [item])
    ensures done + [item] == items[..i + 1] <==> done == items[..i] && item == items[i]
  {
    hide LimitedItem;
    assert items[..i + 1][..i] == items[..i];
    assert items[..i + 1] == items[..i] + [items[i]];
    assert (done + [item])[..i] == done && (done + [item])[i] == item;
  }

  lemma NoneLimited<R>(items: seq<Item<R>>, maxBytes: int, operation: Text)
    ensures LimitedItems(items[..0], maxBytes, operation) == Ok([])
  {
  }

  /** Maps the items; the very same result is returned when no text changed. */
  method EnforceToolResultLimit<R>(result: ToolResult<R>, maxBytes: int, operation: Text) returns (r: Result<ToolResult<R>, Error>, changed: bool)
    ensures r == LimitedResult(result, maxBytes, operation)
    ensures r.Ok? ==> (changed <==> r.value.content != result.content)
  {
    hide Limited, LimitedItems;
    assert LimitedItems(result.content[..0], maxBytes, operation) == Ok([]) by { NoneLimited(result.content, maxBytes, operation); }
    changed := false;
    var content: seq<Item<R>> := [];
    for i := 0 to |result.content|
      invariant LimitedItems(result.content[..i], maxBytes, operation) == Ok(content)
      invariant changed <==> content != result.content[..i]
    {
      var item := result.content[i];
      if item.TextItem? {
        var text := EnforceOutputLimit(item.text, maxBytes, operation);
        if text.Err? {
          FailsBeyond(result.content, i, maxBytes, operation);
          return Err(LimitTooSmall), changed;
        }
        if text.value != item.text { changed := true; }
        content := content + [item.(text := text.value)];
      } else {
        content := content + [item];
      }
      assert content == content[..i] + [content[i]];
      NextLimited(result.content, i, content[..i], content[i], maxBytes, operation);
    }
    assert result.content[..|result.content|] == result.content;
    return Ok(if changed then result.(content := content) else result), changed;
  }

  /**
   Every text of the result fits, other items and the other fields are as they
   were, and limiting the result again gives it back.
   */
  lemma {:induction false} ItemsWithinLimit<R>(items: seq<Item<R>>, maxBytes: int, operation: Text)
    requires LimitedItems(items, maxBytes, operation).Ok?
    ensures var r := LimitedItems(items, maxBytes, operation).value;
            && (forall i :: 0 <= i < |items| ==>
                  if items[i].TextItem? then r[i].TextItem? && ByteLength(r[i].text) <= maxBytes && r[i].rest == items[i].rest
                  else r[i] == items[i])
            && LimitedItems(r, maxBytes, operation) == Ok(r)
  {
    if items != [] {
      var n := |items| - 1;
      ItemsWithinLimit(items[..n], maxBytes, operation);
      var r := LimitedItems(items, maxBytes, operation).value;
      assert r[..n] == LimitedItems(items[..n], maxBytes, operation).value;
      if items[n].TextItem? {
        WithinLimit(items[n].text, maxBytes, operation);
        LimitIdempotent(items[n].text, maxBytes, operation);
      }
    }
  }
}
