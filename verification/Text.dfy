/**
 Strings as ECMAScript has them: sequences of UTF-16 code units, which may
 contain surrogates that are not paired; trimming, ASCII literals and decimal
 numerals.  The strings of Dafny will not do, as their characters exclude the
 surrogates.
 */
module Text {

  type Unit = u: int | 0 <= u < 0x1_0000

  type Text = seq<Unit>

  predicate IsHigh(u: Unit) { 0xD800 <= u <= 0xDBFF }

  predicate IsLow(u: Unit) { 0xDC00 <= u <= 0xDFFF }

  /** The text begins with a high surrogate that a low one follows. */
  predicate StartsWithPair(t: Text) {
    |t| >= 2 && IsHigh(t[0]) && IsLow(t[1])
  }

  /** Every surrogate is one of a pair. */
  predicate WellFormed(t: Text) {
    t == [] ||
    if StartsWithPair(t) then WellFormed(t[2..])
    else !IsHigh(t[0]) && !IsLow(t[0]) && WellFormed(t[1..])
  }

  lemma {:induction false} WellFormedConcat(a: Text, b: Text)
    requires WellFormed(a) && WellFormed(b)
    ensures WellFormed(a + b)
    decreases |a|
  {
    if a == [] {
      assert a + b == b;
    } else if StartsWithPair(a) {
      WellFormedConcat(a[2..], b);
      assert (a + b)[2..] == a[2..] + b;
    } else {
      WellFormedConcat(a[1..], b);
      assert (a + b)[1..] == a[1..] + b;
    }
  }

  lemma {:induction false} NoSurrogatesWellFormed(t: Text)
    requires forall i :: 0 <= i < |t| ==> !IsHigh(t[i]) && !IsLow(t[i])
    ensures WellFormed(t)
  {
    if t != [] { NoSurrogatesWellFormed(t[1..]); }
  }

  // ------------------------------------------------------------------ ASCII

  /** An ASCII literal as code units. */
  function Ascii(s: string): (t: Text)
    requires forall i :: 0 <= i < |s| ==> s[i] < 128 as char
    ensures |t| == |s|
    ensures forall i :: 0 <= i < |s| ==> t[i] == s[i] as int
  {
    seq(|s|, i requires 0 <= i < |s| => s[i] as int)
  }

  /** The text reads as this literal. */
  predicate Spells(t: Text, s: string) {
    |t| == |s| && forall i :: 0 <= i < |s| ==> t[i] == s[i] as int
  }

  // ------------------------------------------------------------------- trim

  /** WhiteSpace and LineTerminator of the language, which `trim` removes. */
  predicate IsSpace(u: Unit) {
    || 0x09 <= u <= 0x0D || u == 0x20 || u == 0xA0 || u == 0x1680 || 0x2000 <= u <= 0x200A
    || u == 0x2028 || u == 0x2029 || u == 0x202F || u == 0x205F || u == 0x3000 || u == 0xFEFF
  }

  function TrimStart(t: Text): (r: Text)
    ensures |r| <= |t|
    ensures r != [] ==> !IsSpace(r[0])
  {
    if t != [] && IsSpace(t[0]) then TrimStart(t[1..]) else t
  }

  function TrimEnd(t: Text): (r: Text)
    ensures r <= t
    ensures r != [] ==> !IsSpace(r[|r| - 1])
  {
    if t != [] && IsSpace(t[|t| - 1]) then TrimEnd(t[..|t| - 1]) else t
  }

  function Trim(t: Text): (r: Text)
    ensures r != [] ==> !IsSpace(r[0]) && !IsSpace(r[|r| - 1])
  {
    TrimEnd(TrimStart(t))
  }

  predicate AllSpaces(t: Text) {
    forall i :: 0 <= i < |t| ==> IsSpace(t[i])
  }

  lemma {:induction false} TrimStartSplits(t: Text)
    ensures |TrimStart(t)| <= |t|
    ensures var n := |t| - |TrimStart(t)|; TrimStart(t) == t[n..] && AllSpaces(t[..n])
  {
    hide IsSpace;
    if t != [] && IsSpace(t[0]) {
      TrimStartSplits(t[1..]);
      var n := |t| - |TrimStart(t)|;
      assert TrimStart(t) == TrimStart(t[1..]);
      assert t[1..][n - 1..] == t[n..];
      SpaceBefore(t, n);
    }
  }

  lemma SpaceBefore(t: Text, n: nat)
    requires 1 <= n <= |t| && IsSpace(t[0]) && AllSpaces(t[1..][..n - 1])
    ensures AllSpaces(t[..n])
  {
    hide IsSpace;
    assert t[..n] == [t[0]] + t[1..][..n - 1];
  }

  lemma {:induction false} TrimEndSplits(t: Text)
    ensures var n := |TrimEnd(t)|; t == TrimEnd(t) + t[n..] && AllSpaces(t[n..])
  {
    if t != [] && IsSpace(t[|t| - 1]) {
      var front := t[..|t| - 1];
      TrimEndSplits(front);
      var n := |TrimEnd(t)|;
      assert t[n..] == front[n..] + [t[|t| - 1]];
      assert t == front + [t[|t| - 1]];
    }
  }

  lemma JoinThree(t: Text, n: nat, a: Text, b: Text)
    requires n <= |t| && t[n..] == a + b
    ensures t == t[..n] + a + b
  {
    assert t == t[..n] + t[n..];
  }

  /** Trimming takes blanks away on both sides, as many as there are, and nothing else. */
  lemma TrimSplits(t: Text) returns (before: Text, after: Text)
    ensures t == before + Trim(t) + after && AllSpaces(before) && AllSpaces(after)
    ensures Trim(t) == [] || (!IsSpace(Trim(t)[0]) && !IsSpace(Trim(t)[|Trim(t)| - 1]))
  {
    TrimStartSplits(t);
    TrimEndSplits(TrimStart(t));
    hide IsSpace, TrimStart, TrimEnd, AllSpaces;
    var middle := TrimStart(t);
    var n := |t| - |middle|;
    before, after := t[..n], middle[|Trim(t)|..];
    JoinThree(t, n, Trim(t), after);
  }

  lemma TrimIdempotent(t: Text)
    ensures Trim(Trim(t)) == Trim(t)
  {
  }

  /** A carriage return before the end of a line is trimmed away with it. */
  lemma {:induction false} TrimLastSpace(t: Text, u: Unit)
    requires IsSpace(u)
    ensures Trim(t + [u]) == Trim(t)
    decreases |t|
  {
    if t == [] {
      assert (t + [u])[1..] == [];
    } else if IsSpace(t[0]) {
      assert (t + [u])[1..] == t[1..] + [u];
      TrimLastSpace(t[1..], u);
    } else {
      assert (t + [u])[..|t|] == t;
    }
  }

  // ---------------------------------------------------------------- numerals

  predicate IsDigit(u: Unit) { 48 <= u <= 57 }

  /** The decimal numeral of a natural number. */
  function Digits(n: nat): (t: Text)
    ensures |t| > 0
    ensures forall i :: 0 <= i < |t| ==> IsDigit(t[i])
    ensures n > 0 ==> t[0] != 48
    ensures n == 0 ==> t == [48]
  {
    if n < 10 then [48 + n] else Digits(n / 10) + [48 + n % 10]
  }

  function DigitsValue(t: Text): (n: nat)
    requires forall i :: 0 <= i < |t| ==> IsDigit(t[i])
  {
    if t == [] then 0 else assert IsDigit(t[|t| - 1]); DigitsValue(t[..|t| - 1]) * 10 + (t[|t| - 1] as int - 48)
  }

  lemma {:induction false} DigitsRoundTrip(n: nat)
    ensures DigitsValue(Digits(n)) == n
  {
    if n < 10 {
      assert Digits(n)[..0] == [];
    } else {
      DigitsRoundTrip(n / 10);
      assert Digits(n)[..|Digits(n)| - 1] == Digits(n / 10);
    }
  }

  lemma DigitsInjective(a: nat, b: nat)
    requires Digits(a) == Digits(b)
    ensures a == b
  {
    DigitsRoundTrip(a);
    DigitsRoundTrip(b);
  }
}
