/** Stream alignment and the command-line number parsers. The parsers work
    on `int`: the source accumulates into an `int64_t`, whose overflow on
    very long digit strings is not modelled. */
module Misc {

  /** Division by a positive `a` has one quotient and one remainder. */
  lemma DivModUnique(x: int, a: int, q: int, m: int)
    requires a > 0 && 0 <= m < a && x == q * a + m
    ensures x % a == m && x / a == q
  {
    var d, r := x / a, x % a;
    assert x == d * a + r;
    if d > q {
      MulLe(q + 1, d, a);
      assert false;
    }
    if d < q {
      MulLe(d + 1, q, a);
      assert false;
    }
  }

  /** The position `falign` moves a stream to: the least multiple of
      `align` that is not below `pos`. */
  function Align(pos: nat, align: nat): (r: nat)
    requires align > 0
    ensures r % align == 0 && pos <= r < pos + align
    ensures pos % align == 0 ==> r == pos
  {
    var offset := pos % align;
    var q := pos / align;
    assert pos == q * align + offset;
    if offset != 0 then
      DivModUnique(pos + (align - offset), align, q + 1, 0);
      pos + (align - offset)
    else
      pos
  }

  /** No multiple of `align` at or above `pos` lies below `Align(pos, align)`. */
  lemma AlignLeast(pos: nat, align: nat, m: nat)
    requires align > 0 && m % align == 0 && pos <= m
    ensures Align(pos, align) <= m
  {
    var r, q, k := Align(pos, align), pos / align, m / align;
    assert pos == q * align + pos % align && m == k * align;
    if pos % align != 0 {
      assert r == (q + 1) * align;
      if k <= q {
        MulLe(k, q, align);
        assert false;
      }
      MulLe(q + 1, k, align);
    }
  }

  // ---- digit strings

  /** The value of digit `c` in base 10 or 16, or -1 if `c` is not one. */
  function DigitValue(c: char, base: nat): (d: int)
    requires base == 10 || base == 16
    ensures -1 <= d < base
    ensures d >= 0 <==> ('0' <= c <= '9' || (base == 16 && ('A' <= c <= 'F' || 'a' <= c <= 'f')))
  {
    if '0' <= c <= '9' then c as int - '0' as int
    else if base == 16 && 'A' <= c <= 'F' then 0xA + (c as int - 'A' as int)
    else if base == 16 && 'a' <= c <= 'f' then 0xA + (c as int - 'a' as int)
    else -1
  }

  predicate AllDigits(s: seq<char>, base: nat)
    requires base == 10 || base == 16
  {
    forall i :: 0 <= i < |s| ==> DigitValue(s[i], base) >= 0
  }

  function Pow(base: nat, n: nat): (r: nat) {
    if n == 0 then 1 else base * Pow(base, n - 1)
  }

  /** The positional value of a digit string: the leading digit weighs
      `base` to the power of the number of digits after it. */
  function Positional(s: seq<char>, base: nat): nat
    requires base == 10 || base == 16
    requires AllDigits(s, base)
  {
    if s == [] then 0 else DigitValue(s[0], base) * Pow(base, |s| - 1) + Positional(s[1..], base)
  }

  /** A digit string of length `n` has a value below `base` to the `n`. */
  lemma {:induction false} PositionalBound(s: seq<char>, base: nat)
    requires base == 10 || base == 16
    requires AllDigits(s, base)
    ensures Positional(s, base) < Pow(base, |s|)
  {
    if s != [] {
      PositionalBound(s[1..], base);
      var d, p := DigitValue(s[0], base), Pow(base, |s| - 1);
      MulLe(d, base - 1, p);
      assert Pow(base, |s|) == (base - 1) * p + p;
    }
  }

  lemma MulLe(x: int, y: int, p: nat)
    requires x <= y
    ensures x * p <= y * p
  {
    assert y * p - x * p == (y - x) * p;
  }

  /** What the digit loop holds after the digits `s`: the running value is
      multiplied by the base and then the digit is added, one digit at a
      time; `-1` digits are never added because the loop stops at them. */
  function Horner(s: seq<char>, base: nat): int
    requires base == 10 || base == 16
    requires AllDigits(s, base)
  {
    if s == [] then 0 else Horner(s[..|s| - 1], base) * base + DigitValue(s[|s| - 1], base)
  }

  lemma {:induction false} PositionalSnoc(s: seq<char>, base: nat, c: char)
    requires base == 10 || base == 16
    requires AllDigits(s, base) && DigitValue(c, base) >= 0
    ensures AllDigits(s + [c], base)
    ensures Positional(s + [c], base) == Positional(s, base) * base + DigitValue(c, base)
  {
    var t := s + [c];
    AllDigitsSnoc(s, base, c);
    if s != [] {
      assert t[1..] == s[1..] + [c];
      assert AllDigits(s[1..], base) by {
        forall i | 0 <= i < |s| - 1 ensures DigitValue(s[1..][i], base) >= 0 {
          assert s[1..][i] == s[i + 1];
        }
      }
      PositionalSnoc(s[1..], base, c);
      var d0, p, rest := DigitValue(s[0], base), Pow(base, |s| - 1), Positional(s[1..], base);
      assert Positional(t, base) == d0 * Pow(base, |s|) + Positional(s[1..] + [c], base);
      assert Pow(base, |s|) == base * p;
      Regroup(d0, p, rest, base, DigitValue(c, base));
    }
  }

  lemma Regroup(d: int, p: int, rest: int, b: int, c: int)
    ensures d * (b * p) + (rest * b + c) == (d * p + rest) * b + c
  {
  }

  lemma AllDigitsSnoc(s: seq<char>, base: nat, c: char)
    requires base == 10 || base == 16
    requires AllDigits(s, base) && DigitValue(c, base) >= 0
    ensures AllDigits(s + [c], base)
  {
    var t := s + [c];
    forall i | 0 <= i < |t| ensures DigitValue(t[i], base) >= 0 {
      if i < |s| { assert t[i] == s[i]; }
    }
  }

  /** The loop's running value is the positional value of the digits read. */
  lemma {:induction false} HornerIsPositional(s: seq<char>, base: nat)
    requires base == 10 || base == 16
    requires AllDigits(s, base)
    ensures Horner(s, base) == Positional(s, base)
  {
    if s != [] {
      var front := s[..|s| - 1];
      assert AllDigits(front, base) by {
        forall i | 0 <= i < |front| ensures DigitValue(front[i], base) >= 0 {
          assert front[i] == s[i];
        }
      }
      HornerIsPositional(front, base);
      PositionalSnoc(front, base, s[|s| - 1]);
      assert front + [s[|s| - 1]] == s;
    }
  }

  /** The digit loop shared by `tryParseHex` and `tryParseDecimal`: the
      result is reset to 0, then each digit multiplies it by the base and
      adds the digit; the first character that is not a digit ends the loop
      with failure, after the multiplication. */
  method ParseDigits(str: seq<char>, digits: nat, base: nat) returns (ok: bool, result: int)
    requires base == 10 || base == 16
    requires digits <= |str|
    ensures ok <==> AllDigits(str[..digits], base)
    ensures ok ==> result == Positional(str[..digits], base)
    ensures !ok ==> exists k :: (0 <= k < digits && DigitValue(str[k], base) < 0 &&
      AllDigits(str[..k], base) && result == Positional(str[..k], base) * base)
  {
    result := 0;
    var i := 0;
    while i < digits
      invariant 0 <= i <= digits
      invariant AllDigits(str[..i], base) && result == Horner(str[..i], base)
    {
      var c := str[i];
      result := result * base;
      var d := DigitValue(c, base);
      if d < 0 {
        HornerIsPositional(str[..i], base);
        assert !AllDigits(str[..digits], base) by {
          assert str[..digits][i] == c;
        }
        return false, result;
      }
      result := result + d;
      assert str[..i + 1] == str[..i] + [c];
      assert str[..i + 1][..i] == str[..i];
      AllDigitsSnoc(str[..i], base, c);
      i := i + 1;
    }
    HornerIsPositional(str[..digits], base);
    ok := true;
  }

  /** `tryParseHex`: exactly the characters 0-9, A-F and a-f are digits. */
  method TryParseHex(str: seq<char>, digits: nat) returns (ok: bool, result: int)
    requires digits <= |str|
    ensures ok <==> forall i :: 0 <= i < digits ==>
      '0' <= str[i] <= '9' || 'A' <= str[i] <= 'F' || 'a' <= str[i] <= 'f'
    ensures ok ==> result == Positional(str[..digits], 16)
    ensures !ok ==> exists k :: (0 <= k < digits && DigitValue(str[k], 16) < 0 &&
      AllDigits(str[..k], 16) && result == Positional(str[..k], 16) * 16)
  {
    ok, result := ParseDigits(str, digits, 16);
    assert forall i :: 0 <= i < digits ==> str[..digits][i] == str[i];
  }

  /** `tryParseDecimal`: exactly the characters 0-9 are digits. */
  method TryParseDecimal(str: seq<char>, digits: nat) returns (ok: bool, result: int)
    requires digits <= |str|
    ensures ok <==> forall i :: 0 <= i < digits ==> '0' <= str[i] <= '9'
    ensures ok ==> result == Positional(str[..digits], 10)
    ensures !ok ==> exists k :: (0 <= k < digits && DigitValue(str[k], 10) < 0 &&
      AllDigits(str[..k], 10) && result == Positional(str[..k], 10) * 10)
  {
    ok, result := ParseDigits(str, digits, 10);
    assert forall i :: 0 <= i < digits ==> str[..digits][i] == str[i];
  }

  /** `str` selects the hexadecimal parser: longer than two characters and
      starting with a lower-case "0x". */
  predicate HexPrefixed(str: seq<char>) {
    |str| > 2 && str[0] == '0' && str[1] == 'x'
  }

  /** `tryParseNumber`: hexadecimal after "0x", decimal otherwise. */
  method TryParseNumber(str: seq<char>) returns (ok: bool, result: int)
    ensures HexPrefixed(str) ==> (ok <==> AllDigits(str[2..], 16))
    ensures HexPrefixed(str) && ok ==> result == Positional(str[2..], 16)
    ensures !HexPrefixed(str) ==> (ok <==> AllDigits(str, 10))
    ensures !HexPrefixed(str) && ok ==> result == Positional(str, 10)
  {
    result := 0;
    if HexPrefixed(str) {
      ok, result := TryParseHex(str[2..], |str| - 2);
      assert str[2..][..|str| - 2] == str[2..];
    } else {
      ok, result := TryParseDecimal(str, |str|);
      assert str[..|str|] == str;
    }
  }

  /** The empty string parses as 0, while "0x" and "0X1" are rejected: the
      first is too short for the hexadecimal path and the second has an
      upper-case X, so both go to the decimal parser and fail on the 'x'. */
  lemma NumberEdgeCases()
    ensures AllDigits("", 10) && Positional("", 10) == 0
    ensures !HexPrefixed("0x") && !AllDigits("0x", 10)
    ensures !HexPrefixed("0X1") && !AllDigits("0X1", 10)
    ensures HexPrefixed("0x1F") && AllDigits("1F", 16) && Positional("1F", 16) == 31
  {
    assert DigitValue("0x"[1], 10) < 0;
    assert DigitValue("0X1"[1], 10) < 0;
    assert "0x1F"[2..] == "1F";
    assert "1F"[1..] == "F";
  }
}
