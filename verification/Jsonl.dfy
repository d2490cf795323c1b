/** JSON Lines: `packages/tekmemo-cli/src/protocol/jsonl.ts`. */
module Jsonl {
  import opened Optional
  import opened Text
  import opened JsonFormat
  import opened JsonRoundTrip

  /** A parsed line with its number, counted from one. */
  datatype Record = Record(line: nat, value: Json)

  datatype Error = NotAnObject(line: nat) | InvalidJson(line: nat)

  const LF: Unit := 10
  const CR: Unit := 13

  // ------------------------------------------------------------------- lines

  /** The text split at every line feed, each with the carriage return before it, if any. */
  function Lines(t: Text): (r: seq<Text>)
    ensures |r| > 0
    decreases |t|
  {
    if t == [] then [[]]
    else if t[0] == LF then [[]] + Lines(t[1..])
    else if t[0] == CR && |t| > 1 && t[1] == LF then [[]] + Lines(t[2..])
    else Glue(t[0], Lines(t[1..]))
  }

  /** The unit put before the first line. */
  function Glue(u: Unit, lines: seq<Text>): (r: seq<Text>)
    requires |lines| > 0
    ensures |r| == |lines|
  {
    [[u] + lines[0]] + lines[1..]
  }

  /** What a line amounts to: a bad one holds other JSON than an object, or no JSON. */
  datatype Line = Blank | Good(value: Json) | Bad(isJson: bool)

  function ReadLine(line: Text): Line {
    var trimmed := Trim(line);
    if |trimmed| == 0 then Blank
    else
      match Parse(trimmed)
      case None => Bad(false)
      case Some(v) => if v.Object? then Good(v) else Bad(true)
  }

  function ReadLines(lines: seq<Text>): (r: seq<Line>)
    ensures |r| == |lines| && forall i :: 0 <= i < |r| ==> r[i] == ReadLine(lines[i])
  {
    seq(|lines|, i requires 0 <= i < |lines| => ReadLine(lines[i]))
  }

  lemma ReadLinesConcat(a: seq<Text>, b: seq<Text>)
    ensures ReadLines(a + b) == ReadLines(a) + ReadLines(b)
  {
    hide ReadLine;
  }

  function ErrorAt(line: nat, r: Line): Error
    requires r.Bad?
  {
    if r.isJson then NotAnObject(line) else InvalidJson(line)
  }

  // ----------------------------------------------------------- specification

  function RecordAt(line: nat, r: Line): seq<Record> {
    if r.Good? then [Record(line, r.value)] else []
  }

  /** What `parseJsonl` makes of the lines: in strict mode the first bad one decides. */
  function Parsed(lines: seq<Line>, first: nat, strict: bool): Result<seq<Record>, Error> {
    if lines == [] then Ok([])
    else
      var n := |lines| - 1;
      match Parsed(lines[..n], first, strict)
      case Err(e) => Err(e)
      case Ok(rs) =>
        if strict && lines[n].Bad? then Err(ErrorAt(first + n, lines[n])) else Ok(rs + RecordAt(first + n, lines[n]))
  }

  function ParseText(content: Text, strict: bool): Result<seq<Record>, Error> {
    Parsed(ReadLines(Lines(content)), 1, strict)
  }

  predicate NoneBad(lines: seq<Line>) {
    forall i :: 0 <= i < |lines| ==> !lines[i].Bad?
  }

  /** The record is what one of the lines holds, under its number. */
  ghost predicate HeldByLine(lines: seq<Line>, first: nat, r: Record) {
    exists i :: 0 <= i < |lines| && lines[i].Good? && r == Record(first + i, lines[i].value)
  }

  lemma HeldByMore(lines: seq<Line>, first: nat, r: Record)
    requires lines != []
    ensures var n := |lines| - 1;
            HeldByLine(lines, first, r) <==> HeldByLine(lines[..n], first, r) || (lines[n].Good? && r == Record(first + n, lines[n].value))
  {
    var n := |lines| - 1;
    if HeldByLine(lines[..n], first, r) {
      var i :| 0 <= i < n && lines[..n][i].Good? && r == Record(first + i, lines[..n][i].value);
      assert lines[i].Good?;
    }
    if HeldByLine(lines, first, r) {
      var i :| 0 <= i < |lines| && lines[i].Good? && r == Record(first + i, lines[i].value);
      if i < n { assert lines[..n][i].Good?; }
    }
  }

  /** Lenient mode never fails; it returns what the lines hold that hold an object, all of it and nothing else, in order. */
  lemma {:induction false} LenientMeaning(lines: seq<Line>, first: nat)
    ensures Parsed(lines, first, false).Ok?
    ensures var records := Parsed(lines, first, false).value;
            && (forall r :: r in records <==> HeldByLine(lines, first, r))
            && (forall j, k :: 0 <= j < k < |records| ==> records[j].line < records[k].line)
            && (forall j :: 0 <= j < |records| ==> records[j].line < first + |lines|)
  {
    if lines != [] {
      var n := |lines| - 1;
      LenientMeaning(lines[..n], first);
      forall r
        ensures r in Parsed(lines, first, false).value <==> HeldByLine(lines, first, r)
      {
        HeldByMore(lines, first, r);
      }
    }
  }

  /** Strict mode succeeds exactly when no line is bad, and then does what lenient mode does. */
  lemma {:induction false} StrictMeaning(lines: seq<Line>, first: nat)
    ensures Parsed(lines, first, true).Ok? <==> NoneBad(lines)
    ensures NoneBad(lines) ==> Parsed(lines, first, true) == Parsed(lines, first, false)
  {
    if lines != [] {
      var n := |lines| - 1;
      StrictMeaning(lines[..n], first);
      LenientMeaning(lines[..n], first);
      assert NoneBad(lines) <==> NoneBad(lines[..n]) && !lines[n].Bad?;
    }
  }

  /** Otherwise it fails at the least bad line, which its error names. */
  lemma {:induction false} StrictFailure(lines: seq<Line>, first: nat, k: nat)
    requires k < |lines| && lines[k].Bad? && NoneBad(lines[..k])
    ensures Parsed(lines, first, true) == Err(ErrorAt(first + k, lines[k]))
  {
    var n := |lines| - 1;
    if k < n {
      assert lines[..n][..k] == lines[..k];
      StrictFailure(lines[..n], first, k);
    } else {
      StrictMeaning(lines[..n], first);
    }
  }

  /** A line is passed over exactly when it is blank; else it is read without the blanks around it. */
  lemma ReadsAs(line: Text)
    ensures ReadLine(line) ==
            if AllSpaces(line) then Blank
            else match Parse(Trim(line))
              case Some(Object(members)) => Good(Object(members))
              case Some(_) => Bad(true)
              case None => Bad(false)
    ensures AllSpaces(line) <==> Trim(line) == []
  {
    hide Parse, Trim, IsSpace;
    var before, after := TrimSplits(line);
    if Trim(line) != [] { assert line[|before|] == Trim(line)[0]; }
  }

  /** The line of this number, from 1 on. */
  predicate LineIs(content: Text, number: nat, line: Text) {
    1 <= number <= |Lines(content)| && Lines(content)[number - 1] == line
  }

  predicate HoldsObject(line: Text, v: Json) {
    v.Object? && !AllSpaces(line) && Parse(Trim(line)) == Some(v)
  }

  predicate IsFaulty(line: Text) {
    !AllSpaces(line) && !(Parse(Trim(line)).Some? && Parse(Trim(line)).value.Object?)
  }

  ghost predicate HeldAt(content: Text, number: nat, v: Json) {
    exists line :: LineIs(content, number, line) && HoldsObject(line, v)
  }

  /** The first line that is neither blank nor an object. */
  ghost predicate FirstFaulty(content: Text, number: nat, line: Text) {
    LineIs(content, number, line) && IsFaulty(line) && forall n: nat, l :: n < number && LineIs(content, n, l) ==> !IsFaulty(l)
  }

  /**
   Read leniently, a text gives the objects on its lines, each with the number of
   its line. Read strictly it fails at the first line that is neither blank nor an
   object, told apart by whether it is JSON at all, and else gives the same.
   */
  lemma TextMeaning(content: Text)
    ensures ParseText(content, false).Ok?
    ensures forall r :: r in ParseText(content, false).value <==> HeldAt(content, r.line, r.value)
    ensures forall number: nat, line :: FirstFaulty(content, number, line) ==>
              ParseText(content, true) == Err(if Parse(Trim(line)).Some? then NotAnObject(number) else InvalidJson(number))
    ensures (forall number: nat, line :: LineIs(content, number, line) ==> !IsFaulty(line)) ==>
              ParseText(content, true) == ParseText(content, false)
  {
    hide Parse, Lines, Trim, AllSpaces, ReadLine;
    var texts, lines := Lines(content), ReadLines(Lines(content));
    LenientMeaning(lines, 1);
    forall r
      ensures HeldByLine(lines, 1, r) <==> HeldAt(content, r.line, r.value)
    {
      HeldIffRead(content, r);
    }
    forall i | 0 <= i < |texts|
      ensures lines[i].Bad? <==> IsFaulty(texts[i])
      ensures LineIs(content, i + 1, texts[i])
    {
      ReadsAs(texts[i]);
    }
    forall number: nat, line | FirstFaulty(content, number, line)
      ensures ParseText(content, true) == Err(if Parse(Trim(line)).Some? then NotAnObject(number) else InvalidJson(number))
    {
      ReadsAs(line);
      StrictFailure(lines, 1, number - 1);
    }
    if forall number: nat, line :: LineIs(content, number, line) ==> !IsFaulty(line) {
      StrictMeaning(lines, 1);
    }
  }

  lemma HeldIffRead(content: Text, r: Record)
    ensures HeldByLine(ReadLines(Lines(content)), 1, r) <==> HeldAt(content, r.line, r.value)
  {
    hide Parse, Lines, Trim, AllSpaces, ReadLine;
    var texts, lines := Lines(content), ReadLines(Lines(content));
    if HeldByLine(lines, 1, r) {
      var i :| 0 <= i < |lines| && lines[i].Good? && r == Record(1 + i, lines[i].value);
      ReadsAs(texts[i]);
      assert LineIs(content, r.line, texts[i]) && HoldsObject(texts[i], r.value);
    }
    if HeldAt(content, r.line, r.value) {
      var line :| LineIs(content, r.line, line) && HoldsObject(line, r.value);
      ReadsAs(line);
      assert lines[r.line - 1].Good?;
    }
  }

  // -------------------------------------------------------------- the parser

  lemma NoneParsed(lines: seq<Line>, strict: bool)
    ensures Parsed(lines[..0], 1, strict) == Ok([])
  {
  }

  lemma OneMoreParsed(lines: seq<Line>, k: nat, strict: bool, records: seq<Record>)
    requires k < |lines| && Parsed(lines[..k], 1, strict) == Ok(records)
    ensures !(strict && lines[k].Bad?) ==>
              Parsed(lines[..k + 1], 1, strict) == Ok(if lines[k].Good? then records + [Record(k + 1, lines[k].value)] else records)
  {
    assert lines[..k + 1][..k] == lines[..k];
    assert records + [] == records;
  }

  /** `parseJsonl`: push the record of every good line, and in strict mode stop at a bad one. */
  method ParseJsonl(content: Text, strict: bool) returns (r: Result<seq<Record>, Error>)
    ensures r == ParseText(content, strict)
  {
    hide Lines, ReadLine, Parsed;
    var lines := Lines(content);
    ghost var read := ReadLines(lines);
    var records: seq<Record> := [];
    assert Parsed(read[..0], 1, strict) == Ok([]) by { NoneParsed(read, strict); }
    for index := 0 to |lines|
      invariant Parsed(read[..index], 1, strict) == Ok(records)
    {
      OneMoreParsed(read, index, strict, records);
      var lineNumber := index + 1;
      match ReadLine(lines[index]) {
        case Blank =>
        case Bad(isJson) =>
          if strict {
            StopHere(read, index);
            return Err(if isJson then NotAnObject(lineNumber) else InvalidJson(lineNumber));
          }
        case Good(value) => records := records + [Record(lineNumber, value)];
      }
    }
    assert read[..|lines|] == read;
    return Ok(records);
  }

  lemma StopHere(lines: seq<Line>, k: nat)
    requires k < |lines| && lines[k].Bad? && Parsed(lines[..k], 1, true).Ok?
    ensures Parsed(lines, 1, true) == Err(ErrorAt(1 + k, lines[k]))
  {
    StrictMeaning(lines[..k], 1);
    StrictFailure(lines, 1, k);
  }

  // -------------------------------------------------------------- the writer

  /** `join("\n")` */
  function Join(texts: seq<Text>): Text {
    if texts == [] then [] else if |texts| == 1 then texts[0] else texts[0] + [LF] + Join(texts[1..])
  }

  function StringifyAll(records: seq<Json>): seq<Text> {
    seq(|records|, i requires 0 <= i < |records| => Stringify(records[i]))
  }

  function StringifyJsonl(records: seq<Json>): Text {
    Join(StringifyAll(records)) + (if |records| > 0 then [LF] else [])
  }

  /** The log is the records, a line feed after each. */
  lemma {:induction false} LogUnfold(records: seq<Json>)
    requires records != []
    ensures StringifyJsonl(records) == Stringify(records[0]) + [LF] + StringifyJsonl(records[1..])
  {
    var texts := StringifyAll(records);
    assert texts[1..] == StringifyAll(records[1..]);
    if |records| > 1 {
      assert Join(texts) == texts[0] + [LF] + Join(texts[1..]);
    }
  }

  /** Appending a block of records to a log is logging all of them. */
  lemma {:induction false} AppendIsConcat(a: seq<Json>, b: seq<Json>)
    ensures StringifyJsonl(a) + StringifyJsonl(b) == StringifyJsonl(a + b)
  {
    if a == [] {
      assert a + b == b;
    } else {
      LogUnfold(a);
      LogUnfold(a + b);
      assert (a + b)[1..] == a[1..] + b;
      AppendIsConcat(a[1..], b);
    }
  }

  // ------------------------------------------------------------ lines of text

  lemma {:induction false} LinesOfVisible(t: Text, rest: Text)
    requires Visible(t)
    ensures Lines(t + ([LF] + rest)) == [t] + Lines(rest)
  {
    var all := t + ([LF] + rest);
    if t == [] {
      assert all == [LF] + rest;
      assert all[1..] == rest;
    } else {
      assert all[1..] == t[1..] + ([LF] + rest);
      LinesOfVisible(t[1..], rest);
      assert [t[0]] + t[1..] == t;
    }
  }

  /** The text is empty or its last line is ended. */
  predicate Terminated(t: Text) {
    t == [] || t[|t| - 1] == LF
  }

  /** A non-empty ended text has more than one line. */
  lemma {:induction false} SeveralLines(a: Text)
    requires a != [] && Terminated(a)
    ensures |Lines(a)| > 1
    decreases |a|
  {
    if a[0] != LF && !(a[0] == CR && |a| > 1 && a[1] == LF) { SeveralLines(a[1..]); }
  }

  lemma GlueConcat(u: Unit, lines: seq<Text>, more: seq<Text>)
    requires |lines| > 0
    ensures Glue(u, lines + more) == Glue(u, lines) + more
  {
  }

  /** The lines before the end of an ended text; its last line is empty. */
  function Body(t: Text): seq<Text> {
    Lines(t)[..|Lines(t)| - 1]
  }

  lemma BodyOfGlue(u: Unit, lines: seq<Text>)
    requires |lines| > 1
    ensures Glue(u, lines)[..|lines| - 1] == Glue(u, lines[..|lines| - 1])
  {
  }

  lemma {:induction false} LinesConcat(a: Text, b: Text)
    requires Terminated(a)
    ensures Lines(a + b) == Body(a) + Lines(b)
    decreases |a|
  {
    if a == [] {
      assert a + b == b;
    } else if a[0] == LF {
      assert (a + b)[1..] == a[1..] + b;
      LinesConcat(a[1..], b);
    } else if a[0] == CR && |a| > 1 && a[1] == LF {
      assert (a + b)[2..] == a[2..] + b;
      LinesConcat(a[2..], b);
    } else {
      assert |a| > 1;
      assert (a + b)[1..] == a[1..] + b;
      LinesConcat(a[1..], b);
      SeveralLines(a[1..]);
      BodyOfGlue(a[0], Lines(a[1..]));
      GlueConcat(a[0], Body(a[1..]), Lines(b));
    }
  }

  lemma LinesOfTerminated(a: Text)
    requires Terminated(a)
    ensures Lines(a) == Body(a) + [[]]
  {
    assert a + [] == a;
    LinesConcat(a, []);
    NoLines();
  }

  lemma NoLines()
    ensures Lines([]) == [[]]
  {
  }

  // -------------------------------------------------------------- round trip

  lemma ObjectLineIsGood(v: Json)
    requires v.Object? && Valid(v)
    ensures ReadLine(Stringify(v)) == Good(v)
  {
    var t := Stringify(v);
    assert t[0] == OPEN_BRACE && t[|t| - 1] == CLOSE_BRACE;
    assert Trim(t) == t;
    ParseStringify(v);
  }

  ghost predicate Records(records: seq<Json>) {
    forall i :: 0 <= i < |records| ==> records[i].Object? && Valid(records[i])
  }

  function Numbered(records: seq<Json>, first: nat): (r: seq<Record>)
    ensures |r| == |records|
    ensures forall i :: 0 <= i < |r| ==> r[i] == Record(first + i, records[i])
  {
    seq(|records|, i requires 0 <= i < |records| => Record(first + i, records[i]))
  }

  lemma {:induction false} LinesOfLog(records: seq<Json>)
    requires Records(records)
    ensures Lines(StringifyJsonl(records)) == StringifyAll(records) + [[]]
  {
    if records != [] {
      var head, rest := Stringify(records[0]), StringifyJsonl(records[1..]);
      LogUnfold(records);
      assert StringifyJsonl(records) == head + ([LF] + rest);
      CleanStringify(records[0]);
      LinesOfVisible(head, rest);
      LinesOfLog(records[1..]);
      assert StringifyAll(records) == [head] + StringifyAll(records[1..]);
    }
  }

  lemma {:induction false} ParsedGood(records: seq<Json>, lines: seq<Line>, first: nat, strict: bool)
    requires |lines| == |records| && forall i :: 0 <= i < |lines| ==> lines[i] == Good(records[i])
    ensures Parsed(lines, first, strict) == Ok(Numbered(records, first))
  {
    if lines != [] {
      var n := |lines| - 1;
      ParsedGood(records[..n], lines[..n], first, strict);
      assert Numbered(records[..n], first) + [Record(first + n, records[n])] == Numbered(records, first);
    }
  }

  lemma ParsedBlankEnd(lines: seq<Line>, first: nat, strict: bool)
    ensures Parsed(lines + [Blank], first, strict) == Parsed(lines, first, strict)
  {
    assert (lines + [Blank])[..|lines|] == lines;
    var r := Parsed(lines, first, strict);
    assert r.Ok? ==> r.value + [] == r.value;
  }

  lemma ReadEmptyLine()
    ensures ReadLine([]) == Blank
  {
  }

  /** `parseJsonl(stringifyJsonl(rs))` gives back `rs`, on lines 1 to n, in both modes. */
  lemma LogRoundTrip(records: seq<Json>, strict: bool)
    requires Records(records)
    ensures ParseText(StringifyJsonl(records), strict) == Ok(Numbered(records, 1))
  {
    var texts := StringifyAll(records);
    LinesOfLog(records);
    ReadEmptyLine();
    ReadLinesConcat(texts, [[]]);
    assert ReadLines([[]]) == [Blank];
    ParsedBlankEnd(ReadLines(texts), 1, strict);
    forall i | 0 <= i < |records|
      ensures ReadLines(texts)[i] == Good(records[i])
    {
      ObjectLineIsGood(records[i]);
    }
    ParsedGood(records, ReadLines(texts), 1, strict);
  }

  // ----------------------------------------------------------- appended logs

  function Shift(records: seq<Record>, n: nat): (r: seq<Record>)
    ensures |r| == |records|
  {
    seq(|records|, i requires 0 <= i < |records| => records[i].(line := records[i].line + n))
  }

  function ShiftResult(r: Result<seq<Record>, Error>, n: nat): Result<seq<Record>, Error> {
    match r
    case Ok(rs) => Ok(Shift(rs, n))
    case Err(e) => Err(e.(line := e.line + n))
  }

  /** One result after another: an error of the first prevails. */
  function Then(a: Result<seq<Record>, Error>, b: Result<seq<Record>, Error>): Result<seq<Record>, Error> {
    match (a, b)
    case (Err(e), _) => Err(e)
    case (Ok(_), Err(e)) => Err(e)
    case (Ok(rs), Ok(more)) => Ok(rs + more)
  }

  lemma {:induction false} ParsedShift(lines: seq<Line>, first: nat, n: nat, strict: bool)
    ensures Parsed(lines, first + n, strict) == ShiftResult(Parsed(lines, first, strict), n)
  {
    if lines != [] {
      var k := |lines| - 1;
      ParsedShift(lines[..k], first, n, strict);
      if Parsed(lines[..k], first, strict).Ok? {
        var rs := Parsed(lines[..k], first, strict).value;
        assert Shift(rs + RecordAt(first + k, lines[k]), n) == Shift(rs, n) + RecordAt(first + n + k, lines[k]);
      }
    }
  }

  lemma {:induction false} ParsedConcat(a: seq<Line>, b: seq<Line>, first: nat, strict: bool)
    ensures Parsed(a + b, first, strict) == Then(Parsed(a, first, strict), Parsed(b, first + |a|, strict))
  {
    hide RecordAt, ErrorAt;
    if b == [] {
      assert a + b == a;
      assert Parsed(a, first, strict).Ok? ==> Parsed(a, first, strict).value + [] == Parsed(a, first, strict).value;
    } else {
      var k := |b| - 1;
      assert (a + b)[..|a| + k] == a + b[..k];
      ParsedConcat(a, b[..k], first, strict);
      if Parsed(a, first, strict).Ok? && Parsed(b[..k], first + |a|, strict).Ok? {
        var rs, more := Parsed(a, first, strict).value, Parsed(b[..k], first + |a|, strict).value;
        assert (rs + more) + RecordAt(first + |a| + k, b[k]) == rs + (more + RecordAt(first + |a| + k, b[k]));
      }
    }
  }

  lemma ReadAppended(log: Text, block: Text)
    requires Terminated(log)
    ensures ReadLines(Lines(log + block)) == ReadLines(Body(log)) + ReadLines(Lines(block))
  {
    LinesConcat(log, block);
    ReadLinesConcat(Body(log), Lines(block));
  }

  lemma ReadTerminated(log: Text)
    requires Terminated(log)
    ensures ReadLines(Lines(log)) == ReadLines(Body(log)) + [Blank]
  {
    LinesOfTerminated(log);
    ReadLinesConcat(Body(log), [[]]);
    ReadEmptyLine();
    assert ReadLines([[]]) == [Blank];
  }

  lemma ParsedAppended(before: seq<Line>, more: seq<Line>, strict: bool)
    ensures Parsed(before + more, 1, strict) ==
            Then(Parsed(before + [Blank], 1, strict), ShiftResult(Parsed(more, 1, strict), |before|))
  {
    ParsedConcat(before, more, 1, strict);
    ParsedShift(more, 1, |before|, strict);
    ParsedBlankEnd(before, 1, strict);
  }

  /**
   Appending any text to an ended log adds its records after the old ones with
   their line numbers shifted, and leaves the old ones as they were.  In strict
   mode an error in the log comes first.
   */
  lemma AppendedLog(log: Text, block: Text, strict: bool)
    requires Terminated(log)
    ensures ParseText(log + block, strict) ==
            Then(ParseText(log, strict), ShiftResult(ParseText(block, strict), |Body(log)|))
  {
    ReadAppended(log, block);
    ReadTerminated(log);
    ParsedAppended(ReadLines(Body(log)), ReadLines(Lines(block)), strict);
  }
}
