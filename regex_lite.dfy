/**
 * The fragment of `java.util.regex` that the platform classifiers use: every
 * pattern is an alternation of fixed-length alternatives built from literal
 * characters, `.` and the class `[0-9]`, and is applied with `Matcher.find()`.
 */
module RegexLite {
  import opened JavaText

  datatype Atom =
    | Char(c: JChar)  // a literal character
    | AnyChar         // `.`: any character except a line terminator
    | Digit           // `[0-9]`

  /** One branch of an alternation. */
  type Alternative = seq<Atom>

  /** `a|b|c`, as the list of its branches; the empty pattern is one empty branch. */
  type Pattern = seq<Alternative>

  /** The characters `.` does not match without DOTALL: \n, \r, U+0085, U+2028, U+2029. */
  predicate IsLineTerminator(c: JChar)
  {
    c == 0x0A || c == 0x0D || c == 0x85 || c == 0x2028 || c == 0x2029
  }

  predicate AtomMatches(a: Atom, c: JChar)
  {
    match a
    case Char(x) => c == x
    case AnyChar => !IsLineTerminator(c)
    case Digit => IsDigit(c)
  }

  /** The branch `alt` matches `s` at position `i`. */
  predicate MatchesAt(alt: Alternative, s: JString, i: int)
  {
    0 <= i && i + |alt| <= |s| && forall k :: 0 <= k < |alt| ==> AtomMatches(alt[k], s[i + k])
  }

  /** `Pattern.compile(p).matcher(s).find()`: some branch matches somewhere in `s`. */
  predicate Find(p: Pattern, s: JString)
  {
    exists j, i :: 0 <= j < |p| && 0 <= i <= |s| && MatchesAt(p[j], s, i)
  }

  /** A literal branch: each character stands for itself. */
  function Literal(s: string): (alt: Alternative)
    ensures |alt| == |s|
  {
    var l := Lit(s);
    seq(|l|, i requires 0 <= i < |l| => Char(l[i]))
  }

  /** A literal branch matches exactly where its text occurs. */
  lemma LiteralMatchesAt(t: string, s: JString, i: int)
    requires 0 <= i
    ensures MatchesAt(Literal(t), s, i) <==> OccursAt(s, Lit(t), i)
  {
    var l := Lit(t);
    if MatchesAt(Literal(t), s, i) {
      forall k | 0 <= k < |l| ensures s[i..i + |l|][k] == l[k] {
        assert AtomMatches(Literal(t)[k], s[i + k]);
      }
      assert s[i..i + |l|] == l;
    }
    if OccursAt(s, l, i) {
      forall k | 0 <= k < |l| ensures AtomMatches(Literal(t)[k], s[i + k]) {
        assert s[i..i + |l|][k] == s[i + k];
      }
    }
  }

  /** A pattern made only of literal branches finds exactly the strings that contain one of them. */
  lemma {:induction false} FindLiterals(ts: seq<string>, s: JString)
    ensures Find(seq(|ts|, j requires 0 <= j < |ts| => Literal(ts[j])), s)
        <==> exists j :: 0 <= j < |ts| && Contains(s, Lit(ts[j]))
  {
    var p := seq(|ts|, j requires 0 <= j < |ts| => Literal(ts[j]));
    if Find(p, s) {
      var j, i :| 0 <= j < |p| && 0 <= i <= |s| && MatchesAt(p[j], s, i);
      LiteralMatchesAt(ts[j], s, i);
      assert Contains(s, Lit(ts[j]));
    }
    if exists j :: 0 <= j < |ts| && Contains(s, Lit(ts[j])) {
      var j :| 0 <= j < |ts| && Contains(s, Lit(ts[j]));
      var i :| 0 <= i <= |s| - |Lit(ts[j])| && OccursAt(s, Lit(ts[j]), i);
      LiteralMatchesAt(ts[j], s, i);
      assert MatchesAt(p[j], s, i);
    }
  }

  /**
   * `find()` looks for a match anywhere, unlike `matches()`: a pattern found in
   * a text is found in every text that contains it.
   */
  lemma FindInContext(p: Pattern, s: JString, before: JString, after: JString)
    requires Find(p, s)
    ensures Find(p, before + s + after)
  {
    var j, i :| 0 <= j < |p| && 0 <= i <= |s| && MatchesAt(p[j], s, i);
    var t := before + s + after;
    forall k | 0 <= k < |p[j]| ensures AtomMatches(p[j][k], t[|before| + i + k]) {
      assert t[|before| + i + k] == s[i + k];
    }
    assert MatchesAt(p[j], t, |before| + i);
  }

  /** The empty pattern `""` is found in every string (at position 0). */
  lemma EmptyPatternFindsAll(s: JString)
    ensures Find([[]], s)
  {
    var p: Pattern := [[]];
    assert MatchesAt(p[0], s, 0);
  }

  /** A branch that needs a character the subject lacks matches nowhere in it. */
  lemma AbsentCharNoMatch(alt: Alternative, s: JString, k: nat)
    requires k < |alt| && alt[k].Char?
    requires forall i :: 0 <= i < |s| ==> s[i] != alt[k].c
    ensures forall i :: !MatchesAt(alt, s, i)
  {
    forall i ensures !MatchesAt(alt, s, i) {
      if 0 <= i && i + |alt| <= |s| {
        assert !AtomMatches(alt[k], s[i + k]);
      }
    }
  }
}
