/**
 * Java text as the core sees it: a `String` is a sequence of UTF-16 code units
 * (`char`), which may include lone surrogates, so it is modelled as a sequence
 * of integers below 0x10000 rather than as a Dafny `string`.
 * Also the small part of `java.lang.String` and `Integer` that the core uses.
 */
module JavaText {

  /** One Java `char`: an unsigned 16-bit UTF-16 code unit. */
  type JChar = c: int | 0 <= c < 0x1_0000

  /** A Java `String`, as its code units. */
  type JString = seq<JChar>

  datatype Option<+T> = None | Some(value: T) {
    /** The value, or `default` where Java would see null (`System.getProperty(key, default)`). */
    function GetOr(default: T): T
    {
      if Some? then value else default
    }
  }

  datatype Result<+T, +E> = Ok(value: T) | Err(error: E)

  /** The Java exceptions the core raises or lets through. */
  datatype Exception =
    | NullPointerException
    | NumberFormatException(input: JString)
    | UnsupportedOperationException(message: JString)
    | IllegalStateException(message: JString)
    | IOException(detail: Option<JString>)
    | UnsatisfiedLinkError(path: JString)
    | AssertionError(message: JString)

  /** The code units of a Dafny string literal (all literals in this model are ASCII). */
  function Lit(s: string): JString
  {
    seq(|s|, i requires 0 <= i < |s| => (s[i] as int) % 0x1_0000)
  }

  /** The code units of a concatenation of literals are the concatenated code units. */
  lemma LitAppend(a: string, b: string)
    ensures Lit(a + b) == Lit(a) + Lit(b)
  {
  }

  /** `String.contains`: `t` occurs in `s` as a contiguous block. */
  predicate Contains(s: JString, t: JString)
  {
    exists i :: 0 <= i <= |s| - |t| && OccursAt(s, t, i)
  }

  /** `t` occurs in `s` starting at index `i`. */
  predicate OccursAt(s: JString, t: JString, i: int)
  {
    0 <= i <= |s| - |t| && s[i..i + |t|] == t
  }

  predicate IsAsciiUpper(c: JChar) { 'A' as int <= c <= 'Z' as int }

  predicate IsAsciiLower(c: JChar) { 'a' as int <= c <= 'z' as int }

  function LowerChar(c: JChar): JChar { if IsAsciiUpper(c) then c + 32 else c }

  function UpperChar(c: JChar): JChar { if IsAsciiLower(c) then c - 32 else c }

  /** `String.toLowerCase`, restricted to the ASCII letters. */
  function ToLower(s: JString): (r: JString)
    ensures |r| == |s|
    ensures forall i :: 0 <= i < |s| ==> !IsAsciiUpper(r[i])
    ensures forall i :: 0 <= i < |s| ==> UpperChar(r[i]) == UpperChar(s[i])
  {
    seq(|s|, i requires 0 <= i < |s| => LowerChar(s[i]))
  }

  /** `String.toUpperCase`, restricted to the ASCII letters. */
  function ToUpper(s: JString): (r: JString)
    ensures |r| == |s|
    ensures forall i :: 0 <= i < |s| ==> !IsAsciiLower(r[i])
    ensures forall i :: 0 <= i < |s| ==> LowerChar(r[i]) == LowerChar(s[i])
  {
    seq(|s|, i requires 0 <= i < |s| => UpperChar(s[i]))
  }

  /** `String.equalsIgnoreCase`, with the ASCII case mapping. */
  predicate EqualsIgnoreCase(s: JString, t: JString)
  {
    ToLower(s) == ToLower(t)
  }

  /** Lower-casing twice is lower-casing once, so a lowered host string is a fixed point. */
  lemma ToLowerIdempotent(s: JString)
    ensures ToLower(ToLower(s)) == ToLower(s)
  {
  }

  /** Upper-casing loses nothing that lower-casing keeps. */
  lemma ToLowerOfUpper(s: JString)
    ensures ToLower(ToUpper(s)) == ToLower(s)
  {
    forall i | 0 <= i < |s| ensures LowerChar(UpperChar(s[i])) == LowerChar(s[i]) {
    }
  }

  /* ---------------- Integer.parseInt (decimal) ---------------- */

  const IntMin: int := -0x8000_0000
  const IntMax: int := 0x7FFF_FFFF

  predicate IsDigit(c: JChar) { '0' as int <= c <= '9' as int }

  predicate AllDigits(d: JString)
  {
    forall i :: 0 <= i < |d| ==> IsDigit(d[i])
  }

  /** The value of a run of decimal digits, read left to right. */
  function DigitsValue(d: JString): nat
    requires AllDigits(d)
  {
    if |d| == 0 then 0
    else
      var last: JChar := d[|d| - 1];
      assert IsDigit(last);
      DigitsValue(d[..|d| - 1]) * 10 + (last - '0' as int)
  }

  /**
   * `Integer.parseInt(s)`: an optional sign followed by at least one decimal digit,
   * with a value in the 32-bit range; anything else raises NumberFormatException (None).
   */
  function ParseInt(s: JString): (r: Option<int>)
    ensures r.Some? ==> IntMin <= r.value <= IntMax
    ensures r.Some? ==> |s| > 0
  {
    var neg := |s| > 0 && s[0] == '-' as int;
    var signed := |s| > 0 && (s[0] == '-' as int || s[0] == '+' as int);
    var digits := if signed then s[1..] else s;
    if |digits| == 0 || !AllDigits(digits) then None
    else
      var m: int := DigitsValue(digits);
      var v := if neg then -m else m;
      if IntMin <= v <= IntMax then Some(v) else None
  }

  /** Text that starts with neither a sign nor a digit is not a number. */
  lemma ParseIntRejectsLeadingNonDigit(s: JString)
    requires |s| > 0 && !IsDigit(s[0]) && s[0] != '-' as int && s[0] != '+' as int
    ensures ParseInt(s) == None
  {
    assert !AllDigits(s);
  }

  /** The canonical decimal rendering of a natural number (what `Integer.toString` prints). */
  function Decimal(n: nat): (r: JString)
    ensures |r| > 0 && forall i :: 0 <= i < |r| ==> IsDigit(r[i])
  {
    if n < 10 then ['0' as int + n] else Decimal(n / 10) + ['0' as int + n % 10]
  }

  lemma {:induction false} DecimalValue(n: nat)
    ensures DigitsValue(Decimal(n)) == n
  {
    var r := Decimal(n);
    if n < 10 {
      assert r[..0] == [];
    } else {
      DecimalValue(n / 10);
      assert r[..|r| - 1] == Decimal(n / 10);
    }
  }

  /** `Integer.parseInt` reads back every 32-bit value that `Integer.toString` writes. */
  lemma ParseIntDecimal(n: int)
    requires IntMin <= n <= IntMax
    ensures n >= 0 ==> ParseInt(Decimal(n)) == Some(n)
    ensures n < 0 ==> ParseInt(Lit("-") + Decimal(-n)) == Some(n)
  {
    if n >= 0 {
      DecimalValue(n);
    } else {
      DecimalValue(-n);
      assert (Lit("-") + Decimal(-n))[1..] == Decimal(-n);
    }
  }
}
