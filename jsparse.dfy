/** JavaScript's global `parseInt(string)` with no radix argument, the way
    the score calculator reads a SCALE_0_10 or MULTIPLE_CHOICE answer, and
    the decimal rendering `n.toString()` the quiz page sends for a chosen
    number. */
module JsParse {
  import opened Common

  /** Value of `c` as a digit in bases up to 36; 36 for anything else. */
  function DigitValue(c: char): (v: nat)
    ensures v <= 36
  {
    if '0' <= c <= '9' then c as int - '0' as int
    else if 'a' <= c <= 'z' then c as int - 'a' as int + 10
    else if 'A' <= c <= 'Z' then c as int - 'A' as int + 10
    else 36
  }

  predicate IsDigit(c: char, radix: nat)
  {
    DigitValue(c) < radix
  }

  /** Length of the longest prefix of `s` made of digits of `radix`. */
  function DigitPrefix(s: string, radix: nat): (n: nat)
    ensures n <= |s|
    ensures forall i :: 0 <= i < n ==> IsDigit(s[i], radix)
    ensures n < |s| ==> !IsDigit(s[n], radix)
  {
    if s == [] || !IsDigit(s[0], radix) then 0 else 1 + DigitPrefix(s[1..], radix)
  }

  /** The number a string of digits denotes in `radix` (most significant first). */
  function ValueOf(ds: string, radix: nat): nat
  {
    if ds == [] then 0
    else ValueOf(ds[..|ds| - 1], radix) * radix + DigitValue(ds[|ds| - 1])
  }

  /** `parseInt(s)`: after leading white space and an optional sign, a
      `0x`/`0X` prefix switches to base 16; the longest run of digits that
      follows is the value, and no digits at all is NaN (here `None`). */
  function ParseInt(s: string): (r: Option<int>)
    ensures r.Some? <==> DigitsAfterPrefix(s) != []
  {
    var digits := DigitsAfterPrefix(s);
    if digits == [] then None
    else Some(SignOf(TrimStart(s)) * ValueOf(digits, RadixOf(TrimStart(s))))
  }

  function SignOf(t: string): int
  {
    if t != [] && t[0] == '-' then -1 else 1
  }

  function Unsigned(t: string): string
  {
    if t != [] && (t[0] == '-' || t[0] == '+') then t[1..] else t
  }

  predicate HexPrefixed(u: string)
  {
    |u| >= 2 && u[0] == '0' && (u[1] == 'x' || u[1] == 'X')
  }

  function RadixOf(t: string): nat
  {
    if HexPrefixed(Unsigned(t)) then 16 else 10
  }

  function DigitsAfterPrefix(s: string): string
  {
    var t := TrimStart(s);
    var u := Unsigned(t);
    var body := if HexPrefixed(u) then u[2..] else u;
    body[..DigitPrefix(body, RadixOf(t))]
  }

  /** `parseInt(s) || 0`: NaN and zero both become 0. */
  function ParseIntOrZero(s: string): (n: int)
    ensures ParseInt(s).Some? ==> n == ParseInt(s).value
    ensures ParseInt(s).None? ==> n == 0
  {
    match ParseInt(s)
    case Some(v) => v
    case None => 0
  }

  function DigitChar(d: nat): (c: char)
    requires d < 10
    ensures IsDigit(c, 10) && DigitValue(c) == d
  {
    ('0' as int + d) as char
  }

  /** The decimal digits of a natural number, as `n.toString()` writes them. */
  function DecimalDigits(n: nat): (ds: string)
    ensures ds != []
    ensures forall i :: 0 <= i < |ds| ==> IsDigit(ds[i], 10)
    ensures ds[0] == '0' ==> n == 0
  {
    if n < 10 then [DigitChar(n)] else DecimalDigits(n / 10) + [DigitChar(n % 10)]
  }

  /** `n.toString()` for an integer. */
  function DecimalString(n: int): string
  {
    if n < 0 then "-" + DecimalDigits(-n) else DecimalDigits(n)
  }

  lemma {:induction false} ValueOfDecimalDigits(n: nat)
    ensures ValueOf(DecimalDigits(n), 10) == n
  {
    if n >= 10 {
      var ds := DecimalDigits(n);
      assert ds[..|ds| - 1] == DecimalDigits(n / 10);
      ValueOfDecimalDigits(n / 10);
    }
  }

  lemma {:induction false} DigitPrefixOfDigits(ds: string, t: string, radix: nat)
    requires forall i :: 0 <= i < |ds| ==> IsDigit(ds[i], radix)
    requires t == [] || !IsDigit(t[0], radix)
    ensures DigitPrefix(ds + t, radix) == |ds|
  {
    if ds != [] {
      assert (ds + t)[1..] == ds[1..] + t;
      DigitPrefixOfDigits(ds[1..], t, radix);
    }
  }

  /** A decimal string is unpadded, carries its sign in front of its digits
      and never starts with `0x`. */
  lemma DecimalStringShape(n: int, t: string)
    requires t == [] || (!IsDigit(t[0], 10) && t[0] != 'x' && t[0] != 'X')
    ensures TrimStart(DecimalString(n) + t) == DecimalString(n) + t
    ensures Unsigned(DecimalString(n) + t) == DecimalDigits(if n < 0 then -n else n) + t
    ensures SignOf(DecimalString(n) + t) == if n < 0 then -1 else 1
    ensures !HexPrefixed(DecimalDigits(if n < 0 then -n else n) + t)
  {
    var ds := DecimalDigits(if n < 0 then -n else n);
    var s := DecimalString(n) + t;
    assert !IsJsSpace(s[0]);
    if n < 0 {
      assert s == "-" + (ds + t);
    }
    var u := ds + t;
    if |u| >= 2 && u[0] == '0' {
      assert |ds| == 1;
      assert u[1] == t[0];
    }
  }

  /** Reading back what `toString` wrote gives the number: a numeric answer
      sent as `n.toString()`, possibly followed by text that does not continue
      the number, is scored as `n`. */
  lemma ParseIntDecimalString(n: int, t: string)
    requires t == [] || (!IsDigit(t[0], 10) && t[0] != 'x' && t[0] != 'X')
    ensures ParseInt(DecimalString(n) + t) == Some(n)
  {
    var m: nat := if n < 0 then -n else n;
    DecimalStringShape(n, t);
    DigitPrefixOfDigits(DecimalDigits(m), t, 10);
    assert DigitsAfterPrefix(DecimalString(n) + t) == DecimalDigits(m);
    ValueOfDecimalDigits(m);
  }

  /** "15" is read as 15. */
  lemma ParseIntFifteen()
    ensures ParseIntOrZero("15") == 15
  {
    assert DecimalDigits(1) == "1";
    assert DecimalDigits(15) == DecimalDigits(1) + [DigitChar(5)] == "15";
    assert DecimalString(15) + "" == "15";
    ParseIntDecimalString(15, "");
  }

  /** "-3" is read as -3. */
  lemma ParseIntMinusThree()
    ensures ParseIntOrZero("-3") == -3
  {
    assert DecimalDigits(3) == "3";
    assert DecimalString(-3) + "" == "-3";
    ParseIntDecimalString(-3, "");
  }

  /** Nothing bounds the value: "15" and "-3" are read as they are. */
  lemma ParseIntUnclamped()
    ensures ParseIntOrZero("15") == 15
    ensures ParseIntOrZero("-3") == -3
  {
    ParseIntFifteen();
    ParseIntMinusThree();
  }

  /** Text without a leading digit is NaN, so it scores 0. */
  lemma ParseIntNaN()
    ensures ParseInt("YES") == None && ParseIntOrZero("YES") == 0
    ensures ParseInt("") == None && ParseIntOrZero("") == 0
    ensures ParseInt("-") == None
  {
    assert !IsJsSpace('Y');
    assert TrimStart("YES") == "YES";
    assert DigitPrefix("YES", 10) == 0;
    assert !IsJsSpace('-');
    assert TrimStart("-") == "-";
    assert Unsigned("-") == [];
  }

  /** Leading blanks are skipped. */
  lemma ParseIntSkipsBlanks()
    ensures ParseInt(" 7") == Some(7)
  {
    assert !IsJsSpace('7');
    assert TrimStart("7") == "7";
    assert " 7"[1..] == "7";
    assert TrimStart(" 7") == "7";
    assert DigitPrefix("7", 10) == 1;
    assert "7"[..1] == "7";
    assert DigitsAfterPrefix(" 7") == "7";
    assert ValueOf("7", 10) == 7;
  }

  /** The digits stop at the first character that is not one: "8.9" is 8. */
  lemma ParseIntStopsAtNonDigit()
    ensures ParseInt("8.9") == Some(8)
  {
    assert !IsJsSpace('8');
    assert TrimStart("8.9") == "8.9";
    assert DigitPrefix("8.9"[1..], 10) == 0;
    assert DigitPrefix("8.9", 10) == 1;
    assert "8.9"[..1] == "8";
    assert DigitsAfterPrefix("8.9") == "8";
    assert ValueOf("8", 10) == 8;
  }

  /** A `0x` prefix reads hexadecimal: "0x1A" is 26. */
  lemma ParseIntHex()
    ensures ParseInt("0x1A") == Some(26)
  {
    assert !IsJsSpace('0');
    assert TrimStart("0x1A") == "0x1A";
    assert HexPrefixed("0x1A");
    assert RadixOf("0x1A") == 16;
    assert "0x1A"[2..] == "1A";
    assert DigitPrefix("1A", 16) == 2;
    assert "1A"[..2] == "1A" && "1A"[..1] == "1";
    assert DigitsAfterPrefix("0x1A") == "1A";
    assert ValueOf("1A", 16) == 26;
  }
}
