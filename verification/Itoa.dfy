/** backend/middleware.go:385-405: a 64-bit integer printed into a buffer of
    twenty bytes, from the end. */
module Itoa {
  const MIN: int := -0x8000_0000_0000_0000
  const MAX: int := 0x7FFF_FFFF_FFFF_FFFF

  /** `m` moved `k` decimal places up. */
  function Shifted(m: nat, k: nat): nat {
    if k == 0 then m else 10 * Shifted(m, k - 1)
  }

  predicate Digit(c: char) { '0' <= c <= '9' }

  function DigitValue(c: char): nat { if Digit(c) then c as int - '0' as int else 0 }

  function Value(s: string): nat {
    if s == "" then 0 else 10 * Value(s[..|s| - 1]) + DigitValue(s[|s| - 1])
  }

  /** A decimal number as it is usually written, without leading zeros. */
  ghost predicate Decimal(s: string, n: int) {
    if n < 0 then |s| > 1 && s[0] == '-' && Numeral(s[1..], -n) else Numeral(s, n)
  }

  ghost predicate Numeral(s: string, n: int) {
    s != "" && (forall i :: 0 <= i < |s| ==> Digit(s[i])) && Value(s) == n && (s[0] == '0' ==> |s| == 1)
  }

  lemma {:induction false} ValueFront(c: char, s: string)
    ensures Value([c] + s) == Shifted(DigitValue(c), |s|) + Value(s)
  {
    if s == "" {
      assert ([c] + s)[..0] == "";
    } else {
      assert ([c] + s)[..|s|] == [c] + s[..|s| - 1];
      ValueFront(c, s[..|s| - 1]);
    }
  }

  lemma {:induction false} ShiftDigit(m: nat, k: nat)
    ensures Shifted(m, k) == Shifted(m / 10, k + 1) + Shifted(m % 10, k)
  {
    if k > 0 { ShiftDigit(m, k - 1); }
  }

  lemma NineteenDigits()
    ensures Shifted(1, 19) == 10_000_000_000_000_000_000
  {
    assert Shifted(1, 3) == 1000;
    assert Shifted(1, 6) == 1_000_000;
    assert Shifted(1, 9) == 1_000_000_000;
    assert Shifted(1, 12) == 1_000_000_000_000;
    assert Shifted(1, 15) == 1_000_000_000_000_000;
    assert Shifted(1, 17) == 100_000_000_000_000_000;
  }

  /** The loop of itoa: digits from the end of the buffer backwards. */
  method WriteDigits(buf: array<char>, all: int) returns (i: nat)
    requires buf.Length == 20 && all < Shifted(1, 19)
    modifies buf
    ensures i <= 20 && (all <= 0 ==> i == 20)
    ensures all > 0 ==> 0 < i < 20 && Numeral(buf[i..], all)
  {
    var m := all;
    i := 20;
    while m > 0
      invariant i <= 20 && (all <= 0 ==> i == 20 && m == all)
      invariant all > 0 ==> 0 <= m && all == Shifted(m, 20 - i) + Value(buf[i..])
      invariant m > 0 ==> i > 1 && m < Shifted(1, i - 1)
      invariant forall k :: i <= k < 20 ==> Digit(buf[k])
      invariant all > 0 && m == 0 ==> 1 <= i < 20 && buf[i] != '0'
    {
      i := i - 1;
      ghost var rest := buf[i + 1..];
      var digit := '0' + (m % 10) as char;
      buf[i] := digit;
      assert buf[i + 1..] == rest && buf[i..] == [digit] + rest && DigitValue(digit) == m % 10;
      ValueFront(digit, rest);
      ShiftDigit(m, |rest|);
      m := m / 10;
    }
    ZeroShifts(20 - i);
  }

  lemma {:induction false} ZeroShifts(k: nat)
    ensures Shifted(0, k) == 0
  {
    if k > 0 { ZeroShifts(k - 1); }
  }

  /** itoa. Every 64-bit integer comes out in decimal, and fits the buffer,
      except the least one: negating it leaves it as it is, no digit is written,
      and only the sign comes out. */
  method FormatInt(n: int) returns (s: string)
    requires MIN <= n <= MAX
    ensures n != MIN ==> Decimal(s, n)
    ensures n == MIN ==> s == "-"
  {
    if n == 0 {
      assert "0"[..0] == "";
      return "0";
    }
    NineteenDigits();
    var buf := new char[20];
    var i := WriteDigits(buf, if n < 0 && n != MIN then -n else n);
    if n < 0 {
      i := i - 1;
      ghost var rest := buf[i + 1..];
      buf[i] := '-';
      assert buf[i + 1..] == rest && buf[i..] == ['-'] + rest && buf[i..][1..] == rest;
    }
    return buf[i..];
  }
}
