/** Small helpers of the engine: the minimum of two ints, string copy,
    character classes, digit counting and decimal writing into a buffer. */
module Utilities {

  /** The smaller of two ints. */
  function Min(a: int, b: int): (r: int)
    ensures r <= a && r <= b
    ensures r == a || r == b
  {
    if a > b then b else a
  }

  /** The position of the first NUL character of a C string. */
  ghost function StrLen(s: seq<char>): (n: nat)
    requires '\0' in s
    ensures n < |s| && s[n] == '\0' && '\0' !in s[..n]
  {
    if s[0] == '\0' then 0 else
      assert s == [s[0]] + s[1..];
      1 + StrLen(s[1..])
  }

  /** Copies a NUL-terminated string into a fresh buffer; null for null. */
  method StrCopy(s: array?<char>) returns (r: array?<char>)
    requires s != null ==> '\0' in s[..]
    ensures (r == null) == (s == null)
    ensures s != null ==>
              && r != null && fresh(r)
              && r.Length == StrLen(s[..]) + 1
              && r[..StrLen(s[..])] == s[..StrLen(s[..])]
              && r[StrLen(s[..])] == '\0'
  {
    if s == null {
      return null;
    }
    ghost var text := s[..];
    var len := 0;
    while s[len] != '\0'
      invariant 0 <= len <= StrLen(text)
      invariant '\0' !in s[..len]
      decreases StrLen(text) - len
    {
      assert s[..len + 1] == s[..len] + [s[len]];
      len := len + 1;
    }
    assert len == StrLen(text);
    r := new char[len + 1];
    var i := 0;
    while i < len
      invariant 0 <= i <= len
      invariant r[..i] == s[..i]
    {
      r[i] := s[i];
      i := i + 1;
    }
    r[len] := '\0';
    assert r[..len] == s[..len];
  }

  /** White space as the command reader understands it: the line feed is not
      one, and every white character lies below the digits and the letters. */
  predicate IsWhiteChar(c: int): (r: bool)
    ensures r ==> c != '\n' as int && c < '0' as int && c < 'A' as int
  {
    // space, tab, vertical tab, form feed, carriage return
    c == ' ' as int || c == '\t' as int || c == 11 || c == 12 || c == '\r' as int
  }

  /** An ASCII decimal digit: exactly the characters DigitChar writes. */
  predicate IsNumber(c: int): (r: bool)
    ensures r <==> 0 <= c - '0' as int < 10 && DigitChar(c - '0' as int) as int == c
  {
    !(c < '0' as int || c > '9' as int)
  }

  /** A code in the ASCII range from 'A' to 'z': every letter, and the six
      signs between 'Z' and 'a'; never a digit. */
  predicate IsAcceptable(c: int): (r: bool)
    ensures ('A' as int <= c <= 'Z' as int || 'a' as int <= c <= 'z' as int) ==> r
    ensures r ==> !IsNumber(c)
  {
    c >= 'A' as int && c <= 'z' as int
  }

  /** Every character of a number's decimal text is one isNumber accepts. */
  lemma DecimalIsNumbers(x: nat)
    requires x > 0
    ensures forall i :: 0 <= i < |Decimal(x)| ==> IsNumber(Decimal(x)[i] as int)
  {
  }

  /** The three classes are exactly the codes listed in their documentation. */
  lemma CharClasses(c: int)
    ensures IsWhiteChar(c) <==> c in {9, 11, 12, 13, 32}
    ensures !IsWhiteChar(10)
    ensures IsNumber(c) <==> 48 <= c <= 57
    ensures IsAcceptable(c) <==> 65 <= c <= 122
    ensures IsAcceptable('[' as int) && IsAcceptable('_' as int)
    ensures !(IsWhiteChar(c) && IsNumber(c)) && !(IsNumber(c) && IsAcceptable(c))
    ensures !(IsWhiteChar(c) && IsAcceptable(c))
  {
  }

  /** One more than the largest C int: values and buffer positions that the
      source passes as int stay below it. */
  const IntLimit: nat := 0x8000_0000

  function Pow10(n: nat): (r: nat)
    ensures r >= 1
  {
    if n == 0 then 1 else 10 * Pow10(n - 1)
  }

  /** The number of decimal digits of x; zero has none. */
  function Digits(x: nat): nat
  {
    if x == 0 then 0 else 1 + Digits(x / 10)
  }

  /** Digits(x) is the d with 10^(d-1) <= x < 10^d. */
  lemma {:induction false} DigitsBounds(x: nat)
    ensures x < Pow10(Digits(x))
    ensures x > 0 ==> Digits(x) >= 1 && Pow10(Digits(x) - 1) <= x
  {
    if x > 0 {
      DigitsBounds(x / 10);
      if x / 10 > 0 {
        assert Pow10(Digits(x) - 1) == 10 * Pow10(Digits(x / 10) - 1);
      }
    }
  }

  /** Counts the digits of an unsigned 32-bit value with the source's division loop. */
  method NumberOfDigits(x: nat) returns (result: nat)
    requires x < 0x1_0000_0000
    ensures result == Digits(x) <= 10
  {
    var v := x;
    result := 0;
    while v > 0
      invariant Digits(x) == result + Digits(v)
    {
      v := v / 10;
      result := result + 1;
    }
    DigitsAtMost(x);
  }

  /** A 32-bit value has at most ten digits. */
  lemma DigitsAtMost(x: nat)
    requires x < 0x1_0000_0000
    ensures Digits(x) <= 10
  {
    assert Pow10(10) == 10000000000;
    DigitsBelow(x, 10);
  }

  /** A number below 10^n has at most n digits. */
  lemma {:induction false} DigitsBelow(x: nat, n: nat)
    requires x < Pow10(n)
    ensures Digits(x) <= n
  {
    if x > 0 {
      DigitsBelow(x / 10, n - 1);
    }
  }

  lemma {:induction false} PowMonotone(m: nat, n: nat)
    requires m <= n
    ensures Pow10(m) <= Pow10(n)
  {
    if m < n {
      PowMonotone(m, n - 1);
    }
  }

  function DigitChar(d: nat): char
    requires d < 10
  {
    ('0' as int + d) as char
  }

  /** The decimal text of a positive number, most significant digit first. */
  function Decimal(x: nat): (s: seq<char>)
    requires x > 0
    ensures |s| == Digits(x)
    ensures forall i :: 0 <= i < |s| ==> '0' <= s[i] <= '9'
  {
    if x < 10 then [DigitChar(x)] else Decimal(x / 10) + [DigitChar(x % 10)]
  }

  /** Reads a digit string back in base 10. */
  function ValueOf(s: seq<char>): nat
    requires forall i :: 0 <= i < |s| ==> '0' <= s[i] <= '9'
  {
    if s == [] then 0 else 10 * ValueOf(s[..|s| - 1]) + (s[|s| - 1] as int - '0' as int)
  }

  /** Writing a number in decimal and reading it back gives the number. */
  lemma {:induction false} DecimalRoundTrip(x: nat)
    requires x > 0
    ensures ValueOf(Decimal(x)) == x
  {
    var s := Decimal(x);
    if x >= 10 {
      DecimalRoundTrip(x / 10);
      assert s[..|s| - 1] == Decimal(x / 10);
    }
  }

  /** Decimal texts of different numbers differ. */
  lemma DecimalInjective(x: nat, y: nat)
    requires x > 0 && y > 0 && Decimal(x) == Decimal(y)
    ensures x == y
  {
    DecimalRoundTrip(x);
    DecimalRoundTrip(y);
  }

  function Rev(s: seq<char>): (r: seq<char>)
    ensures |r| == |s|
  {
    if s == [] then [] else [s[|s| - 1]] + Rev(s[..|s| - 1])
  }

  lemma {:induction false} RevAt(s: seq<char>, i: nat)
    requires i < |s|
    ensures Rev(s)[i] == s[|s| - 1 - i]
  {
    if i > 0 {
      RevAt(s[..|s| - 1], i - 1);
    }
  }

  /** The scratch buffer of IntToString: the num digits of x, least
      significant first, then a terminating NUL. */
  method ReversedDigits(x: nat, num: nat) returns (temp: array<char>)
    requires x > 0 && num == Digits(x)
    ensures fresh(temp) && temp.Length == num + 1
    ensures Rev(temp[..num]) == Decimal(x) && temp[num] == '\0'
  {
    temp := new char[num + 1];
    var v := x;
    var k := 0;
    while v > 0
      invariant 0 <= k <= num
      invariant k + Digits(v) == num
      invariant v == 0 ==> Decimal(x) == Rev(temp[..k])
      invariant v > 0 ==> Decimal(x) == Decimal(v) + Rev(temp[..k])
    {
      temp[k] := DigitChar(v % 10);
      assert temp[..k + 1][..k] == temp[..k];
      v := v / 10;
      k := k + 1;
    }
    temp[k] := '\0';
    assert temp[..num] == temp[..k];
  }

  /** Writes the num decimal digits of x into board[iter..iter+num), copying
      them out of the scratch buffer in reverse. x and every position written
      are C ints, so they stay below 2^31. */
  method IntToString(x: nat, board: array<char>, num: nat, iter: nat)
    requires 0 < x < IntLimit && num == Digits(x)
    requires iter + num <= board.Length && iter + num <= IntLimit
    modifies board
    ensures board[iter..iter + num] == Decimal(x)
    ensures forall i :: 0 <= i < board.Length && !(iter <= i < iter + num) ==> board[i] == old(board[i])
  {
    var temp := ReversedDigits(x, num);
    ghost var digits := temp[..num];
    var l := 0;
    while l < num
      invariant 0 <= l <= num
      invariant temp[..num] == digits
      invariant forall i :: iter <= i < iter + l ==> board[i] == digits[num - 1 - (i - iter)]
      invariant forall i :: 0 <= i < board.Length && !(iter <= i < iter + l) ==> board[i] == old(board[i])
    {
      board[iter + l] := temp[num - 1 - l];
      l := l + 1;
    }
    forall i | 0 <= i < num
      ensures board[iter..iter + num][i] == Decimal(x)[i]
    {
      assert board[iter..iter + num][i] == board[iter + i];
      RevAt(digits, i);
    }
  }
}
