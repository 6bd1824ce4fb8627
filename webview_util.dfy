/**
 * The string escaping helpers of `WebViewUtil`: `jsonEscape`, which produces the
 * body of a JSON string literal, and `forceSafeChars`, which only makes a string
 * NUL-free and ASCII. Both work one UTF-16 code unit at a time, so each is the
 * concatenation of a per-character mapping (`ConcatMap`), and the loops that
 * build them are proved equal to that.
 */
module WebViewUtil {
  import opened JavaText

  const NUL: JChar := 0x00
  const BACKSPACE: JChar := 0x08
  const TAB: JChar := 0x09
  const NEWLINE: JChar := 0x0A
  const FORM_FEED: JChar := 0x0C
  const CARRIAGE_RETURN: JChar := 0x0D
  const QUOTE: JChar := 0x22
  const SLASH: JChar := 0x2F
  const BACKSLASH: JChar := 0x5C

  /* ---------------- "%04x" ---------------- */

  predicate IsLowerHexDigit(c: JChar)
  {
    IsDigit(c) || 'a' as int <= c <= 'f' as int
  }

  /** A hexadecimal digit in either case, as a JSON reader accepts it. */
  predicate IsHexDigit(c: JChar)
  {
    IsLowerHexDigit(c) || 'A' as int <= c <= 'F' as int
  }

  /** The lower-case hexadecimal digit of `d`, as `%x` prints it. */
  function HexDigit(d: nat): (c: JChar)
    requires d < 16
    ensures IsLowerHexDigit(c)
  {
    if d < 10 then '0' as int + d else 'a' as int + (d - 10)
  }

  function HexDigitValue(c: JChar): (d: nat)
    requires IsHexDigit(c)
    ensures d < 16
  {
    if IsDigit(c) then c - '0' as int
    else if 'a' as int <= c <= 'f' as int then c - 'a' as int + 10
    else c - 'A' as int + 10
  }

  /** `String.format("%04x", (int) ch)`: exactly four lower-case, zero-padded hex digits. */
  function Hex4(c: JChar): (h: JString)
    ensures |h| == 4
    ensures forall i :: 0 <= i < 4 ==> IsLowerHexDigit(h[i])
  {
    [HexDigit(c / 0x1000), HexDigit(c / 0x100 % 16), HexDigit(c / 0x10 % 16), HexDigit(c % 16)]
  }

  /** The value of four hexadecimal digits, most significant first. */
  function Hex4Value(h: JString): (v: JChar)
    requires |h| == 4 && forall i :: 0 <= i < 4 ==> IsHexDigit(h[i])
  {
    var d0, d1, d2, d3 := HexDigitValue(h[0]), HexDigitValue(h[1]), HexDigitValue(h[2]), HexDigitValue(h[3]);
    assert d0 * 0x1000 <= 15 * 0x1000 && d1 * 0x100 <= 15 * 0x100 && d2 * 0x10 <= 15 * 0x10;
    d0 * 0x1000 + d1 * 0x100 + d2 * 0x10 + d3
  }

  lemma HexDigitRoundTrip(d: nat)
    requires d < 16
    ensures HexDigitValue(HexDigit(d)) == d
  {
  }

  /** Reading back the four digits that `%04x` writes gives the code unit again. */
  lemma Hex4RoundTrip(c: JChar)
    ensures Hex4Value(Hex4(c)) == c
  {
    var h := Hex4(c);
    var q0, q1, q2 := c / 0x1000, c / 0x100, c / 0x10;
    HexDigitRoundTrip(q0);
    HexDigitRoundTrip(q1 % 16);
    HexDigitRoundTrip(q2 % 16);
    HexDigitRoundTrip(c % 16);
    assert q1 == q0 * 16 + q1 % 16;
    assert q2 == q1 * 16 + q2 % 16;
    assert c == q2 * 16 + c % 16;
  }

  /** `"\\u" + String.format("%04x", (int) ch)`: the six-character escape of a code unit. */
  function UnicodeEscape(c: JChar): (e: JString)
    ensures |e| == 6 && e[0] == BACKSLASH && e[1] == 'u' as int && e[2..] == Hex4(c)
  {
    [BACKSLASH, 'u' as int] + Hex4(c)
  }

  /* ---------------- per-character mappings ---------------- */

  /** The output of one pass of the loop in `jsonEscape` for the character `c`. */
  function JsonEscapeChar(c: JChar): JString
  {
    if c == NUL then UnicodeEscape(NUL)  // the literal "\\u0000"
    else if c == NEWLINE then [BACKSLASH, 'n' as int]
    else if c == TAB then [BACKSLASH, 't' as int]
    else if c == CARRIAGE_RETURN then [BACKSLASH, 'r' as int]
    else if c == BACKSLASH then [BACKSLASH, BACKSLASH]
    else if c == QUOTE then [BACKSLASH, QUOTE]
    else if c == BACKSPACE then [BACKSLASH, 'b' as int]
    else if c == FORM_FEED then [BACKSLASH, 'f' as int]
    else if c > 127 then UnicodeEscape(c)
    else [c]
  }

  /** The output of one pass of the loop in `forceSafeChars` for the character `c`. */
  function SafeChar(c: JChar): JString
  {
    if c == NUL then UnicodeEscape(NUL)
    else if c > 127 then UnicodeEscape(c)
    else [c]
  }

  /** The characters `jsonEscape` copies unchanged. */
  predicate IsJsonPlain(c: JChar)
  {
    0 < c <= 127 && c !in {NEWLINE, TAB, CARRIAGE_RETURN, BACKSLASH, QUOTE, BACKSPACE, FORM_FEED}
  }

  /** The characters `forceSafeChars` copies unchanged: ASCII other than NUL. */
  predicate IsSafePlain(c: JChar)
  {
    0 < c <= 127
  }

  /** Every character is ASCII and none is NUL. */
  predicate IsNulFreeAscii(t: JString)
  {
    forall i :: 0 <= i < |t| ==> IsSafePlain(t[i])
  }

  /* ---------------- the string functions ---------------- */

  /** The concatenation of `f` applied to each character of `s`, in order. */
  function ConcatMap(f: JChar -> JString, s: JString): JString
  {
    if |s| == 0 then [] else ConcatMap(f, s[..|s| - 1]) + f(s[|s| - 1])
  }

  /** What `jsonEscape(s)` returns. */
  function JsonEscaped(s: JString): JString
  {
    ConcatMap(JsonEscapeChar, s)
  }

  /** What `forceSafeChars(s)` returns. */
  function SafeChars(s: JString): JString
  {
    ConcatMap(SafeChar, s)
  }

  /* ---------------- the loops ---------------- */

  /** `WebViewUtil.jsonEscape`: the switch over each char, appended to a builder. */
  method JsonEscape(input: JString) returns (output: JString)
    ensures output == JsonEscaped(input)
  {
    output := [];
    for i := 0 to |input|
      invariant output == JsonEscaped(input[..i])
    {
      var ch := input[i];
      if ch == NUL {
        output := output + [BACKSLASH, 'u' as int, '0' as int, '0' as int, '0' as int, '0' as int];
      } else if ch == NEWLINE {
        output := output + [BACKSLASH, 'n' as int];
      } else if ch == TAB {
        output := output + [BACKSLASH, 't' as int];
      } else if ch == CARRIAGE_RETURN {
        output := output + [BACKSLASH, 'r' as int];
      } else if ch == BACKSLASH {
        output := output + [BACKSLASH, BACKSLASH];
      } else if ch == QUOTE {
        output := output + [BACKSLASH, QUOTE];
      } else if ch == BACKSPACE {
        output := output + [BACKSLASH, 'b' as int];
      } else if ch == FORM_FEED {
        output := output + [BACKSLASH, 'f' as int];
      } else if ch > 127 {
        output := output + [BACKSLASH, 'u' as int] + Hex4(ch);
      } else {
        output := output + [ch];
      }
      assert input[..i + 1][..i] == input[..i];
    }
    assert input[..|input|] == input;
  }

  /** `WebViewUtil.forceSafeChars`: NUL and non-ASCII escaped, everything else copied. */
  method ForceSafeChars(input: JString) returns (output: JString)
    ensures output == SafeChars(input)
  {
    output := [];
    for i := 0 to |input|
      invariant output == SafeChars(input[..i])
    {
      var ch := input[i];
      if ch == NUL {
        output := output + [BACKSLASH, 'u' as int, '0' as int, '0' as int, '0' as int, '0' as int];
      } else if ch > 127 {
        output := output + [BACKSLASH, 'u' as int] + Hex4(ch);
      } else {
        output := output + [ch];
      }
      assert input[..i + 1][..i] == input[..i];
    }
    assert input[..|input|] == input;
  }

  /* ---------------- properties of ConcatMap ---------------- */

  lemma {:induction false} ConcatMapAppend(f: JChar -> JString, a: JString, b: JString)
    ensures ConcatMap(f, a + b) == ConcatMap(f, a) + ConcatMap(f, b)
  {
    if |b| == 0 {
      assert a + b == a;
    } else {
      assert (a + b)[..|a + b| - 1] == a + b[..|b| - 1];
      ConcatMapAppend(f, a, b[..|b| - 1]);
    }
  }

  lemma ConcatMapCons(f: JChar -> JString, c: JChar, s: JString)
    ensures ConcatMap(f, [c] + s) == f(c) + ConcatMap(f, s)
  {
    ConcatMapAppend(f, [c], s);
    assert [c][..0] == [];
  }

  lemma {:induction false} ConcatMapNulFreeAscii(f: JChar -> JString, s: JString)
    requires forall i :: 0 <= i < |s| ==> IsNulFreeAscii(f(s[i]))
    ensures IsNulFreeAscii(ConcatMap(f, s))
  {
    if |s| > 0 {
      ConcatMapNulFreeAscii(f, s[..|s| - 1]);
      assert IsNulFreeAscii(f(s[|s| - 1]));
    }
  }

  lemma {:induction false} ConcatMapLength(f: JChar -> JString, s: JString)
    requires forall i :: 0 <= i < |s| ==> |f(s[i])| >= 1
    ensures |ConcatMap(f, s)| >= |s|
    ensures |ConcatMap(f, s)| == |s| <==> forall i :: 0 <= i < |s| ==> |f(s[i])| == 1
  {
    if |s| > 0 {
      var init := s[..|s| - 1];
      ConcatMapLength(f, init);
      assert forall i :: 0 <= i < |init| ==> init[i] == s[i];
      assert |f(s[|s| - 1])| >= 1;
      if |ConcatMap(f, s)| == |s| {
        assert |ConcatMap(f, init)| == |init|;
      }
    }
  }

  lemma {:induction false} ConcatMapIdentity(f: JChar -> JString, s: JString)
    requires forall i :: 0 <= i < |s| ==> f(s[i]) == [s[i]]
    ensures ConcatMap(f, s) == s
  {
    if |s| > 0 {
      ConcatMapIdentity(f, s[..|s| - 1]);
      assert f(s[|s| - 1]) == [s[|s| - 1]];
      assert s[..|s| - 1] + [s[|s| - 1]] == s;
    }
  }

  /* ---------------- properties of the two mappings ---------------- */

  /**
   * Each character of the input becomes 1, 2 or 6 characters of NUL-free ASCII;
   * it becomes one character exactly when it is plain, and then it is copied.
   */
  lemma JsonEscapeCharShape(c: JChar)
    ensures var e := JsonEscapeChar(c);
      && (|e| == 1 || |e| == 2 || |e| == 6)
      && IsNulFreeAscii(e)
      && (|e| == 1 <==> IsJsonPlain(c))
      && (IsJsonPlain(c) ==> e == [c])
  {
    var e := JsonEscapeChar(c);
    if c == NUL || c > 127 {
      assert e == UnicodeEscape(c);
      assert forall i :: 2 <= i < 6 ==> e[i] == Hex4(c)[i - 2];
    }
  }

  lemma SafeCharShape(c: JChar)
    ensures var e := SafeChar(c);
      && (|e| == 1 || |e| == 6)
      && IsNulFreeAscii(e)
      && (|e| == 1 <==> IsSafePlain(c))
      && (IsSafePlain(c) ==> e == [c])
  {
    var e := SafeChar(c);
    if c == NUL || c > 127 {
      assert forall i :: 2 <= i < 6 ==> e[i] == Hex4(c)[i - 2];
    }
  }

  /** `jsonEscape` distributes over concatenation. */
  lemma JsonEscapedAppend(a: JString, b: JString)
    ensures JsonEscaped(a + b) == JsonEscaped(a) + JsonEscaped(b)
  {
    ConcatMapAppend(JsonEscapeChar, a, b);
  }

  /** `forceSafeChars` distributes over concatenation. */
  lemma SafeCharsAppend(a: JString, b: JString)
    ensures SafeChars(a + b) == SafeChars(a) + SafeChars(b)
  {
    ConcatMapAppend(SafeChar, a, b);
  }

  /** Whatever the input, `jsonEscape` yields ASCII without NUL. */
  lemma JsonEscapedNulFreeAscii(s: JString)
    ensures IsNulFreeAscii(JsonEscaped(s))
  {
    forall i | 0 <= i < |s| ensures IsNulFreeAscii(JsonEscapeChar(s[i])) {
      JsonEscapeCharShape(s[i]);
    }
    ConcatMapNulFreeAscii(JsonEscapeChar, s);
  }

  /** Whatever the input, `forceSafeChars` yields ASCII without NUL. */
  lemma SafeCharsNulFreeAscii(s: JString)
    ensures IsNulFreeAscii(SafeChars(s))
  {
    forall i | 0 <= i < |s| ensures IsNulFreeAscii(SafeChar(s[i])) {
      SafeCharShape(s[i]);
    }
    ConcatMapNulFreeAscii(SafeChar, s);
  }

  /**
   * `jsonEscape` never shortens its input, and it returns its input unchanged
   * exactly when every character is plain (ASCII, not NUL, none of \n \t \r \b \f \ ").
   */
  lemma JsonEscapedIdentity(s: JString)
    ensures |JsonEscaped(s)| >= |s|
    ensures JsonEscaped(s) == s <==> forall i :: 0 <= i < |s| ==> IsJsonPlain(s[i])
  {
    forall i | 0 <= i < |s| ensures |JsonEscapeChar(s[i])| >= 1 {
      JsonEscapeCharShape(s[i]);
    }
    ConcatMapLength(JsonEscapeChar, s);
    if forall i :: 0 <= i < |s| ==> IsJsonPlain(s[i]) {
      forall i | 0 <= i < |s| ensures JsonEscapeChar(s[i]) == [s[i]] {
        JsonEscapeCharShape(s[i]);
      }
      ConcatMapIdentity(JsonEscapeChar, s);
    }
    if JsonEscaped(s) == s {
      forall i | 0 <= i < |s| ensures IsJsonPlain(s[i]) {
        JsonEscapeCharShape(s[i]);
      }
    }
  }

  /**
   * `forceSafeChars` never shortens its input, and it returns its input unchanged
   * exactly when the input is NUL-free ASCII; quotes and backslashes are kept as they are.
   */
  lemma SafeCharsIdentity(s: JString)
    ensures |SafeChars(s)| >= |s|
    ensures SafeChars(s) == s <==> IsNulFreeAscii(s)
  {
    forall i | 0 <= i < |s| ensures |SafeChar(s[i])| >= 1 {
      SafeCharShape(s[i]);
    }
    ConcatMapLength(SafeChar, s);
    if IsNulFreeAscii(s) {
      forall i | 0 <= i < |s| ensures SafeChar(s[i]) == [s[i]] {
        SafeCharShape(s[i]);
      }
      ConcatMapIdentity(SafeChar, s);
    }
    if SafeChars(s) == s {
      forall i | 0 <= i < |s| ensures IsSafePlain(s[i]) {
        SafeCharShape(s[i]);
      }
    }
  }

  /* ---------------- reading a JSON string body back ---------------- */

  /** The character a two-character escape `\e` stands for in a JSON string (section 7 of RFC 8259). */
  function SimpleUnescape(e: JChar): Option<JChar>
  {
    if e == QUOTE then Some(QUOTE)
    else if e == BACKSLASH then Some(BACKSLASH)
    else if e == SLASH then Some(SLASH)
    else if e == 'b' as int then Some(BACKSPACE)
    else if e == 'f' as int then Some(FORM_FEED)
    else if e == 'n' as int then Some(NEWLINE)
    else if e == 'r' as int then Some(CARRIAGE_RETURN)
    else if e == 't' as int then Some(TAB)
    else None
  }

  function Prepend(c: JChar, r: Option<JString>): Option<JString>
  {
    if r.Some? then Some([c] + r.value) else None
  }

  /**
   * A reader for the body of a JSON string literal. With `strict`, it also
   * rejects what section 7 of RFC 8259 forbids unescaped: a quote or a
   * control character below 0x20; without it, such a character is kept.
   */
  function JsonUnescape(t: JString, strict: bool): Option<JString>
    decreases |t|
  {
    if |t| == 0 then Some([])
    else if t[0] != BACKSLASH then
      if strict && (t[0] < 0x20 || t[0] == QUOTE) then None
      else Prepend(t[0], JsonUnescape(t[1..], strict))
    else if |t| >= 2 && SimpleUnescape(t[1]).Some? then
      Prepend(SimpleUnescape(t[1]).value, JsonUnescape(t[2..], strict))
    else if |t| >= 6 && t[1] == 'u' as int && forall i :: 2 <= i < 6 ==> IsHexDigit(t[i]) then
      Prepend(Hex4Value(t[2..6]), JsonUnescape(t[6..], strict))
    else None
  }

  /** The control characters `jsonEscape` leaves unescaped although a JSON string may not contain them. */
  predicate IsBareControl(c: JChar)
  {
    0 < c < 0x20 && c !in {NEWLINE, TAB, CARRIAGE_RETURN, BACKSPACE, FORM_FEED}
  }

  lemma UnescapeJsonEscapeChar(c: JChar, rest: JString, strict: bool)
    requires strict ==> !IsBareControl(c)
    ensures JsonUnescape(JsonEscapeChar(c) + rest, strict) == Prepend(c, JsonUnescape(rest, strict))
  {
    var e := JsonEscapeChar(c);
    var t := e + rest;
    if c == NUL || c > 127 {
      assert t[2..6] == Hex4(c);
      Hex4RoundTrip(c);
      assert t[6..] == rest;
    } else if |e| == 2 {
      assert t[2..] == rest;
    } else {
      assert t[1..] == rest;
    }
  }

  /**
   * Reading the output of `jsonEscape` back as a JSON string body recovers the
   * input; a strict reader does so whenever the input has no bare control character.
   */
  lemma {:induction false} JsonEscapedRoundTrip(s: JString, strict: bool)
    requires strict ==> forall i :: 0 <= i < |s| ==> !IsBareControl(s[i])
    ensures JsonUnescape(JsonEscaped(s), strict) == Some(s)
  {
    if |s| > 0 {
      ConcatMapCons(JsonEscapeChar, s[0], s[1..]);
      assert [s[0]] + s[1..] == s;
      JsonEscapedRoundTrip(s[1..], strict);
      UnescapeJsonEscapeChar(s[0], JsonEscaped(s[1..]), strict);
    }
  }

  /** `jsonEscape` copies the control character U+0001, which a strict JSON reader rejects. */
  lemma JsonEscapedNotStrictJson()
    ensures JsonEscaped([0x01]) == [0x01]
    ensures JsonUnescape(JsonEscaped([0x01]), true) == None
  {
    assert [0x01][..0] == [];
  }

  /** `forceSafeChars` cannot be undone: "é" and the six characters "\u00e9" give the same output. */
  lemma SafeCharsNotInjective()
    ensures SafeChars([0xE9]) == SafeChars(Lit("\\u00e9")) && [0xE9] != Lit("\\u00e9")
  {
    var l := Lit("\\u00e9");
    assert l == [BACKSLASH, 'u' as int, '0' as int, '0' as int, 'e' as int, '9' as int];
    SafeCharsIdentity(l);
    HexExamples();
    ConcatMapCons(SafeChar, 0xE9, []);
  }

  /** `%04x` of NUL, of U+00E9 and of U+20AC. */
  lemma HexExamples()
    ensures Hex4(0) == [48, 48, 48, 48]
    ensures Hex4(0xE9) == [48, 48, 101, 57]
    ensures Hex4(0x20AC) == [50, 48, 97, 99]
  {
  }

  /** A one-character string escapes to the escape of its character. */
  lemma JsonEscapedOne(c: JChar)
    ensures JsonEscaped([c]) == JsonEscapeChar(c)
  {
    ConcatMapCons(JsonEscapeChar, c, []);
  }

  /** The first half of `JsonEscapeExample`: `Hello "world` escapes to `Hello \"world`. */
  lemma JsonEscapeExampleHead()
    ensures JsonEscaped([72, 101, 108, 108, 111, 32, 34, 119, 111, 114, 108, 100])
         == [72, 101, 108, 108, 111, 32, 92, 34, 119, 111, 114, 108, 100]
  {
    var hello: JString := [72, 101, 108, 108, 111, 32];
    var world: JString := [119, 111, 114, 108, 100];
    var a := hello + [QUOTE];
    assert JsonEscaped(a) == hello + [92, 34] by {
      JsonEscapedIdentity(hello);
      JsonEscapedOne(QUOTE);
      JsonEscapedAppend(hello, [QUOTE]);
    }
    JsonEscapedIdentity(world);
    JsonEscapedAppend(a, world);
    assert [72, 101, 108, 108, 111, 32, 34, 119, 111, 114, 108, 100] == a + world;
    assert hello + [92, 34] + world == [72, 101, 108, 108, 111, 32, 92, 34, 119, 111, 114, 108, 100];
  }

  /** The second half of `JsonEscapeExample`: quote, newline and `é`. */
  lemma JsonEscapeExampleTail()
    ensures JsonEscaped([QUOTE, NEWLINE, 0xE9]) == [92, 34, 92, 110, 92, 117, 48, 48, 101, 57]
  {
    JsonEscapedOne(QUOTE);
    JsonEscapedOne(NEWLINE);
    assert JsonEscaped([0xE9]) == [92, 117, 48, 48, 101, 57] by {
      JsonEscapedOne(0xE9);
      HexExamples();
    }
    JsonEscapedAppend([QUOTE], [NEWLINE]);
    JsonEscapedAppend([QUOTE, NEWLINE], [0xE9]);
    assert [QUOTE] + [NEWLINE] == [QUOTE, NEWLINE];
    assert [QUOTE, NEWLINE] + [0xE9] == [QUOTE, NEWLINE, 0xE9];
  }

  /** `Hello "world"` + newline + `é` escapes to `Hello \"world\"\n\u00e9` (code units written out). */
  lemma JsonEscapeExample()
    ensures JsonEscaped([72, 101, 108, 108, 111, 32, 34, 119, 111, 114, 108, 100, 34, 10, 0xE9])
         == [72, 101, 108, 108, 111, 32, 92, 34, 119, 111, 114, 108, 100, 92, 34, 92, 110, 92, 117, 48, 48, 101, 57]
  {
    var b: JString := [72, 101, 108, 108, 111, 32, 34, 119, 111, 114, 108, 100];
    JsonEscapeExampleHead();
    JsonEscapeExampleTail();
    JsonEscapedAppend(b, [QUOTE, NEWLINE, 0xE9]);
    assert [72, 101, 108, 108, 111, 32, 34, 119, 111, 114, 108, 100, 34, 10, 0xE9] == b + [QUOTE, NEWLINE, 0xE9];
  }

  /** `A"B` + NUL + `C€` becomes `A"B\u0000C€`: the quote is kept (code units written out). */
  lemma ForceSafeCharsExample()
    ensures SafeChars([65, 34, 66, 0, 67, 0x20AC])
         == [65, 34, 66, 92, 117, 48, 48, 48, 48, 67, 92, 117, 50, 48, 97, 99]
  {
    var ab: JString := [65, 34, 66];
    var front := ab + [NUL] + [67];
    assert SafeChars(front) == [65, 34, 66, 92, 117, 48, 48, 48, 48, 67] by {
      assert SafeChars(ab) == ab by { SafeCharsIdentity(ab); }
      assert SafeChars([67]) == [67] by { SafeCharsIdentity([67]); }
      assert SafeChars([NUL]) == [92, 117, 48, 48, 48, 48] by {
        HexExamples();
        ConcatMapCons(SafeChar, NUL, []);
      }
      SafeCharsAppend(ab + [NUL], [67]);
      SafeCharsAppend(ab, [NUL]);
    }
    assert SafeChars([0x20AC]) == [92, 117, 50, 48, 97, 99] by {
      HexExamples();
      ConcatMapCons(SafeChar, 0x20AC, []);
    }
    SafeCharsAppend(front, [0x20AC]);
    assert [65, 34, 66, 0, 67, 0x20AC] == front + [0x20AC];
  }
}
