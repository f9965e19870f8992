// Decimal numerals as the standard library prints and reads them:
// std::to_string, std::from_chars into an unsigned 64-bit word and std::stoi.
module Decimal {
  import opened Prelude

  predicate IsDigit(c: char) { '0' <= c <= '9' }

  function Digit(d: nat): (c: char)
    requires d < 10
    ensures IsDigit(c) && DigitValue(c) == d
  {
    '0' + d as char
  }

  function DigitValue(c: char): (d: nat)
    requires IsDigit(c)
    ensures d < 10
  {
    c as int - '0' as int
  }

  predicate AllDigits(s: string) { forall i :: 0 <= i < |s| ==> IsDigit(s[i]) }

  /** std::to_string of an unsigned value. */
  function Print(n: nat): (s: string)
    ensures s != "" && AllDigits(s)
  {
    if n < 10 then [Digit(n)] else Print(n / 10) + [Digit(n % 10)]
  }

  /** std::to_string of a signed value. */
  function PrintInt(n: int): (s: string) {
    if n < 0 then "-" + Print(-n) else Print(n)
  }

  /** The number a run of digits denotes. */
  function Value(s: string): (n: nat)
    requires AllDigits(s)
  {
    if s == "" then 0 else Value(s[..|s| - 1]) * 10 + DigitValue(s[|s| - 1])
  }

  function DigitRun(s: string): (k: nat)
    ensures k <= |s| && forall i :: 0 <= i < k ==> IsDigit(s[i])
    ensures k < |s| ==> !IsDigit(s[k])
  {
    if s == "" || !IsDigit(s[0]) then 0
    else
      var j := DigitRun(s[1..]);
      assert forall i :: 0 < i < 1 + j ==> s[i] == s[1..][i - 1];
      1 + j
  }

  /** std::from_chars into size_t: the longest digit prefix is read, what follows
      it is ignored, no digit at all or a value that needs more than 64 bits is an
      error. */
  function FromChars(s: string): (r: Option<nat>) {
    var k := DigitRun(s);
    if k == 0 then None
    else if Value(s[..k]) >= WORD then None
    else Some(Value(s[..k]))
  }

  predicate IsSpace(c: char) { c == ' ' || '\t' <= c <= '\r' }

  function SkipSpace(s: string): (r: string)
    ensures |r| <= |s|
  {
    if s != "" && IsSpace(s[0]) then SkipSpace(s[1..]) else s
  }

  /** std::stoi, base 10 into a 32-bit int; None is a thrown exception. */
  function Stoi(s: string): (r: Option<int>)
    ensures r.Some? ==> -0x8000_0000 <= r.value < 0x8000_0000
  {
    var t := SkipSpace(s);
    var negative := t != "" && t[0] == '-';
    var u := if t != "" && (t[0] == '-' || t[0] == '+') then t[1..] else t;
    var k := DigitRun(u);
    if k == 0 then None
    else
      var magnitude: int := Value(u[..k]);
      var v := if negative then -magnitude else magnitude;
      if -0x8000_0000 <= v < 0x8000_0000 then Some(v) else None
  }

  lemma {:induction false} ValueOfPrint(n: nat)
    ensures Value(Print(n)) == n
  {
    if n < 10 {
      assert Print(n)[..0] == "";
    } else {
      ValueOfPrint(n / 10);
      var s := Print(n);
      assert s[..|s| - 1] == Print(n / 10);
    }
  }

  lemma DigitRunAll(s: string, rest: string)
    requires AllDigits(s)
    requires rest == "" || !IsDigit(rest[0])
    ensures DigitRun(s + rest) == |s|
  {
    var t := s + rest;
    assert forall i :: 0 <= i < |s| ==> t[i] == s[i];
    assert rest != "" ==> t[|s|] == rest[0];
  }

  /** Reading back a printed number, whatever non-digit text follows it. It works
      exactly for the values a 64-bit word holds. */
  lemma FromCharsOfPrint(n: nat, rest: string)
    requires rest == "" || !IsDigit(rest[0])
    ensures FromChars(Print(n) + rest) == if n < WORD then Some(n) else None
  {
    DigitRunAll(Print(n), rest);
    ValueOfPrint(n);
    assert (Print(n) + rest)[..|Print(n)|] == Print(n);
  }

  lemma PrintInjective(m: nat, n: nat)
    requires Print(m) == Print(n)
    ensures m == n
  {
    ValueOfPrint(m);
    ValueOfPrint(n);
  }

  /** std::stoi undoes std::to_string on every 32-bit int, negative ones included. */
  lemma StoiOfPrintInt(n: int)
    requires -0x8000_0000 <= n < 0x8000_0000
    ensures Stoi(PrintInt(n)) == Some(n)
  {
    var s := PrintInt(n);
    var d := Print(if n < 0 then -n else n);
    ValueOfPrint(if n < 0 then -n else n);
    DigitRunAll(d, "");
    assert d + "" == d && d[..|d|] == d;
    assert IsDigit(d[0]);
    assert SkipSpace(s) == s;
    if n < 0 {
      assert s[1..] == d;
    }
  }

  lemma {:induction false} SpaceSkipped(spaces: string, rest: string)
    requires forall i :: 0 <= i < |spaces| ==> IsSpace(spaces[i])
    requires rest != "" && !IsSpace(rest[0])
    ensures SkipSpace(spaces + rest) == rest
    decreases |spaces|
  {
    if spaces == "" {
      assert spaces + rest == rest;
    } else {
      assert (spaces + rest)[1..] == spaces[1..] + rest;
      SpaceSkipped(spaces[1..], rest);
    }
  }

  lemma SkipNothing(t: string)
    requires t != "" && !IsSpace(t[0])
    ensures SkipSpace(t) == t
  {
  }

  lemma StoiSkips(spaces: string, t: string)
    requires forall i :: 0 <= i < |spaces| ==> IsSpace(spaces[i])
    requires t != "" && !IsSpace(t[0])
    ensures Stoi(spaces + t) == Stoi(t)
  {
    SpaceSkipped(spaces, t);
    SkipNothing(t);
  }

  predicate IsSign(sign: string) { sign == "" || sign == "+" || sign == "-" }

  function Signed(sign: string, n: int): (v: int) { if sign == "-" then -n else n }

  lemma RunRead(n: nat, rest: string)
    requires rest == "" || !IsDigit(rest[0])
    ensures var d := Print(n) + rest;
      IsDigit(d[0]) && DigitRun(d) == |Print(n)| > 0 && Value(d[..|Print(n)|]) == n
  {
    DigitRunAll(Print(n), rest);
    ValueOfPrint(n);
    assert (Print(n) + rest)[..|Print(n)|] == Print(n);
  }

  lemma SignOff(sign: string, d: string)
    requires IsSign(sign) && d != "" && IsDigit(d[0])
    ensures (sign + d) != "" && !IsSpace((sign + d)[0])
    ensures if sign == "" then sign + d == d else (sign + d)[0] == sign[0] && (sign + d)[1..] == d
  {
  }

  lemma StoiSigned(sign: string, n: nat, rest: string)
    requires IsSign(sign) && (rest == "" || !IsDigit(rest[0]))
    ensures Stoi(sign + (Print(n) + rest))
         == if -0x8000_0000 <= Signed(sign, n) < 0x8000_0000 then Some(Signed(sign, n)) else None
  {
    var d := Print(n) + rest;
    RunRead(n, rest);
    SignOff(sign, d);
    SkipNothing(sign + d);
  }

  /** And reads a number behind white space and a sign, whatever non-digit text follows. */
  lemma StoiReads(spaces: string, sign: string, n: nat, rest: string)
    requires forall i :: 0 <= i < |spaces| ==> IsSpace(spaces[i])
    requires IsSign(sign) && (rest == "" || !IsDigit(rest[0]))
    ensures Stoi(spaces + (sign + (Print(n) + rest)))
         == if -0x8000_0000 <= Signed(sign, n) < 0x8000_0000 then Some(Signed(sign, n)) else None
  {
    RunRead(n, rest);
    SignOff(sign, Print(n) + rest);
    StoiSkips(spaces, sign + (Print(n) + rest));
    StoiSigned(sign, n, rest);
  }
}
