/** Decimal numerals, as strconv reads and writes them. */
module Decimal {
  import opened Wrappers

  predicate IsNumeral(s: string) {
    |s| > 0 && forall i :: 0 <= i < |s| ==> '0' <= s[i] <= '9'
  }

  function Value(s: string): nat
    requires IsNumeral(s)
  {
    var last := s[|s| - 1] as int - '0' as int;
    if |s| == 1 then last else 10 * Value(s[..|s| - 1]) + last
  }

  /** strconv.Itoa for a natural number: reading it back gives the number. */
  function Text(n: nat): (s: string)
    ensures IsNumeral(s) && Value(s) == n
  {
    var digit := [(n % 10 + '0' as int) as char];
    if n < 10 then digit
    else
      var front := Text(n / 10);
      assert (front + digit)[..|front|] == front;
      front + digit
  }

  /** strconv.ParseUint(s, 10, 16) */
  function ParseUint16(s: string): Option<nat> {
    if IsNumeral(s) && Value(s) < 0x1_0000 then Some(Value(s)) else None
  }

  function PowerOfTen(k: nat): nat {
    if k == 0 then 1 else 10 * PowerOfTen(k - 1)
  }

  /** Each digit counts itself times the power of ten of its place. */
  lemma {:induction false} ValueByPlaces(s: string, i: nat)
    requires IsNumeral(s) && 0 < i < |s|
    ensures IsNumeral(s[..i]) && IsNumeral(s[i..])
    ensures Value(s) == Value(s[..i]) * PowerOfTen(|s| - i) + Value(s[i..])
  {
    var front := s[..|s| - 1];
    if i == |s| - 1 {
      assert PowerOfTen(1) == 10 * PowerOfTen(0);
      assert s[i..] == [s[|s| - 1]];
    } else {
      ValueByPlaces(front, i);
      assert front[..i] == s[..i];
      assert s[i..][..|s| - i - 1] == front[i..];
      TimesTen(Value(s[..i]), PowerOfTen(|s| - 1 - i));
    }
  }

  lemma TimesTen(a: nat, b: nat)
    ensures 10 * (a * b) == a * (10 * b)
  {
  }

  /** Port numbers, and nothing larger, are read back from their numerals. */
  lemma PortIsReadBack(n: nat)
    ensures ParseUint16(Text(n)) == if n <= 65535 then Some(n) else None
  {
  }

  /** What is read consists of digits. */
  lemma ParsedIsDigits(s: string)
    ensures ParseUint16(s).Some? ==> s != "" && forall i :: 0 <= i < |s| ==> '0' <= s[i] <= '9'
    ensures s == "" || (exists i :: 0 <= i < |s| && !('0' <= s[i] <= '9')) ==> ParseUint16(s).None?
  {
  }

  /** Zeros in front make no difference. */
  lemma ZerosInFront(zeros: string, s: string)
    requires s != "" && forall i :: 0 <= i < |zeros| ==> zeros[i] == '0'
    ensures ParseUint16(zeros + s) == ParseUint16(s)
  {
    var padded := zeros + s;
    if zeros == "" {
      assert padded == s;
    } else if IsNumeral(s) {
      assert IsNumeral(padded);
      ZerosCountNothing(zeros);
      ValueByPlaces(padded, |zeros|);
      assert padded[..|zeros|] == zeros && padded[|zeros|..] == s;
    } else {
      var k :| 0 <= k < |s| && !('0' <= s[k] <= '9');
      assert padded[|zeros| + k] == s[k];
    }
  }

  lemma {:induction false} ZerosCountNothing(s: string)
    requires s != "" && forall i :: 0 <= i < |s| ==> s[i] == '0'
    ensures IsNumeral(s) && Value(s) == 0
  {
    if |s| > 1 { ZerosCountNothing(s[..|s| - 1]); }
  }

  /** strconv.Atoi, on numbers of any size: a sign is allowed. */
  function Atoi(s: string): Option<int> {
    if IsNumeral(s) then Some(Value(s))
    else if |s| > 0 && s[0] in "+-" && IsNumeral(s[1..]) then
      var n: int := Value(s[1..]);
      Some(if s[0] == '-' then -n else n)
    else None
  }

  /** A numeral is read with or without a sign, and as nothing else. */
  lemma AtoiReadsBack(n: nat, sign: char)
    ensures Atoi(Text(n)) == Some(n)
    ensures sign == '-' ==> Atoi([sign] + Text(n)) == Some(-(n as int))
    ensures sign == '+' ==> Atoi([sign] + Text(n)) == Some(n)
    ensures sign !in "+-0123456789" ==> Atoi([sign] + Text(n)) == None
  {
    var text := [sign] + Text(n);
    assert text[1..] == Text(n);
  }
}
