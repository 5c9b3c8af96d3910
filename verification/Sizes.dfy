/** ParseByteSize of pkg/config/config_yaml.go, with Go's 64-bit arithmetic. */
module Sizes {
  import opened Prelude

  const TWO_63: int := 0x8000_0000_0000_0000

  /** The unit table exactly as the source writes it. */
  function UnitSize(unit: string): (size: Option<int>)
    ensures size.Some? ==> size.value >= 1 && forall i :: 0 <= i < |unit| ==> 'a' <= unit[i] <= 'z'
  {
    if unit == "" then Some(1)
    else if unit in ["k", "kb"] then Some(1000)
    else if unit == "kib" then Some(1024)
    else if unit in ["m", "mb"] then Some(10_000_000)
    else if unit == "mib" then Some(1_048_576)
    else if unit in ["g", "gb"] then Some(10_000_000_000)
    else if unit == "gib" then Some(1_073_741_824)
    else None
  }

  predicate IsDigit(c: char) { '0' <= c <= '9' }

  /** The character class [A-z] of the size pattern, punctuation included. */
  predicate IsUnitChar(c: char) { 'A' <= c <= 'z' }

  function LowerChar(c: char): char {
    if 'A' <= c <= 'Z' then (c as int + 32) as char else c
  }

  function Lower(s: string): (l: string)
    ensures |l| == |s|
    ensures forall i :: 0 <= i < |s| ==> l[i] == LowerChar(s[i])
  {
    if s == "" then "" else [LowerChar(s[0])] + Lower(s[1..])
  }

  /** The two's-complement value of x modulo 2^64. */
  function Wrap64(x: int): int {
    (x + TWO_63) % (2 * TWO_63) - TWO_63
  }

  function DigitCount(s: string): (n: nat)
    ensures n <= |s|
    ensures forall i :: 0 <= i < n ==> IsDigit(s[i])
    ensures n < |s| ==> !IsDigit(s[n])
  {
    if s == "" || !IsDigit(s[0]) then 0 else 1 + DigitCount(s[1..])
  }

  ghost predicate Numeral(d: string) {
    d != "" && forall i :: 0 <= i < |d| ==> IsDigit(d[i])
  }

  function DecimalValue(d: string): nat
    requires forall i :: 0 <= i < |d| ==> IsDigit(d[i])
  {
    if d == "" then 0
    else
      assert IsDigit(d[|d| - 1]);
      10 * DecimalValue(d[..|d| - 1]) + (d[|d| - 1] as int - '0' as int)
  }

  function ParseByteSize(raw: string): Result<int> {
    var n := DigitCount(raw);
    var unit := raw[n..];
    if n == 0 || exists i :: 0 <= i < |unit| && !IsUnitChar(unit[i]) then Err
    else if DecimalValue(raw[..n]) >= TWO_63 then Err
    else
      match UnitSize(Lower(unit))
      case None => Err
      case Some(m) => Ok(Wrap64(DecimalValue(raw[..n]) * m))
  }

  /** The decimal digits of n, without leading zeros. */
  function Digits(n: nat): (d: string)
    ensures Numeral(d)
  {
    if n < 10 then [(n + '0' as int) as char]
    else Digits(n / 10) + [(n % 10 + '0' as int) as char]
  }

  lemma {:induction false} DigitsValue(n: nat)
    ensures DecimalValue(Digits(n)) == n
  {
    if n >= 10 {
      DigitsValue(n / 10);
      assert Digits(n)[..|Digits(n)| - 1] == Digits(n / 10);
    } else {
      assert Digits(n)[..0] == "";
    }
  }

  lemma UnitsAreLetters(u: string)
    requires forall i :: 0 <= i < |u| ==> 'a' <= Lower(u)[i] <= 'z'
    ensures forall i :: 0 <= i < |u| ==> IsUnitChar(u[i]) && !IsDigit(u[i])
  {
    forall i | 0 <= i < |u| ensures IsUnitChar(u[i]) && !IsDigit(u[i]) {
      assert Lower(u)[i] == LowerChar(u[i]);
    }
  }

  /** What a digits-plus-unit string parses to. */
  lemma ParseParts(d: string, u: string)
    requires Numeral(d) && UnitSize(Lower(u)).Some?
    ensures ParseByteSize(d + u)
         == if DecimalValue(d) >= TWO_63 then Err else Ok(Wrap64(DecimalValue(d) * UnitSize(Lower(u)).value))
  {
    UnitsAreLetters(u);
    DigitsEnd(d, u);
    assert (d + u)[..|d|] == d && (d + u)[|d|..] == u;
  }

  lemma {:induction false} DigitsEnd(d: string, u: string)
    requires forall i :: 0 <= i < |d| ==> IsDigit(d[i])
    requires u != "" ==> !IsDigit(u[0])
    ensures DigitCount(d + u) == |d|
  {
    if d == "" {
      assert d + u == u;
    } else {
      DigitsEnd(d[1..], u);
      assert (d + u)[1..] == d[1..] + u;
    }
  }

  /** A string is accepted exactly when it is a numeral below 2^63 followed by a table unit in any letter case. */
  lemma AcceptedExactly(s: string)
    ensures ParseByteSize(s).Ok?
       <==> exists d, u :: s == d + u && Numeral(d) && DecimalValue(d) < TWO_63 && UnitSize(Lower(u)).Some?
  {
    if ParseByteSize(s).Ok? {
      var n := DigitCount(s);
      assert s == s[..n] + s[n..];
      assert Numeral(s[..n]);
    }
    forall d, u | s == d + u && Numeral(d) && DecimalValue(d) < TWO_63 && UnitSize(Lower(u)).Some?
      ensures ParseByteSize(s).Ok?
    {
      ParseParts(d, u);
    }
  }

  /** Printing n and appending a unit parses back to n units exactly when that product fits in 63 bits. */
  lemma RoundTripExactly(n: nat, u: string)
    requires UnitSize(Lower(u)).Some?
    ensures ParseByteSize(Digits(n) + u) == Ok(n * UnitSize(Lower(u)).value)
       <==> n * UnitSize(Lower(u)).value < TWO_63
  {
    ParseParts(Digits(n), u);
    DigitsValue(n);
    Overflow(n, UnitSize(Lower(u)).value);
  }

  lemma Overflow(n: nat, m: int)
    requires m >= 1
    ensures n <= n * m
    ensures Wrap64(n * m) == n * m <==> n * m < TWO_63
  {
  }

  /** The ten units, and how many bytes each stands for. */
  lemma UnitTable(u: string)
    ensures UnitSize(u) == Some(1) <==> u == ""
    ensures UnitSize(u) == Some(1_000) <==> u == "k" || u == "kb"
    ensures UnitSize(u) == Some(1_024) <==> u == "kib"
    ensures UnitSize(u) == Some(10_000_000) <==> u == "m" || u == "mb"
    ensures UnitSize(u) == Some(1_048_576) <==> u == "mib"
    ensures UnitSize(u) == Some(10_000_000_000) <==> u == "g" || u == "gb"
    ensures UnitSize(u) == Some(1_073_741_824) <==> u == "gib"
    ensures UnitSize(u) == None <==> u !in ["", "k", "kb", "kib", "m", "mb", "mib", "g", "gb", "gib"]
  {
  }
}
