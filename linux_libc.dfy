/**
 * `LinuxLibC.isGNU()`: whether a Linux host has the GNU C library. The two
 * probes it runs (reading `/usr/bin/ldd`, running a shell command) are inputs
 * here, each either the text it read or a failure (`IOException`).
 */
module LinuxLibCs {
  import opened JavaText
  import opened OSDistributions

  /** What a probe produced: the text it read, or an `IOException`. */
  datatype ProbeOutcome = Read(text: JString) | Failed

  /** The answer of the file probe: `/usr/bin/ldd` mentions the GNU C Library. */
  function FileProbeAnswer(ldd: JString): bool
  {
    Contains(ldd, Lit("GNU C Library"))
  }

  /** The answer of the command probe: its standard output mentions glibc. */
  function CommandProbeAnswer(output: JString): bool
  {
    Contains(output, Lit("glibc"))
  }

  /**
   * What `isGNU()` returns or throws, given the detected distribution, the
   * `casterlabs.commons.forcegnu` property and the outcomes of the two probes.
   * A failed probe is reported and skipped; when both fail the answer is GNU.
   */
  function IsGnu(distribution: OSDistribution, forceGnu: Option<JString>, fileProbe: ProbeOutcome, commandProbe: ProbeOutcome)
    : (r: Result<bool, Exception>)
    ensures r.Err? <==> distribution != LINUX
    ensures r.Err? ==> r.error == IllegalStateException(Lit("LinuxLibC is only supported on Linux."))
    ensures r == Ok(false) ==>
      (fileProbe.Read? && !FileProbeAnswer(fileProbe.text))
      || (fileProbe.Failed? && commandProbe.Read? && !CommandProbeAnswer(commandProbe.text))
  {
    if distribution != LINUX then Err(IllegalStateException(Lit("LinuxLibC is only supported on Linux.")))
    else if forceGnu.Some? && EqualsIgnoreCase(Lit("true"), forceGnu.value) then Ok(true)
    else if fileProbe.Read? then Ok(FileProbeAnswer(fileProbe.text))
    else if commandProbe.Read? then Ok(CommandProbeAnswer(commandProbe.text))
    else Ok(true)
  }

  /** Forcing GNU (in any letter case) on Linux answers GNU whatever the probes say. */
  lemma ForcedGnu(force: JString, fileProbe: ProbeOutcome, commandProbe: ProbeOutcome)
    requires EqualsIgnoreCase(Lit("true"), force)
    ensures IsGnu(LINUX, Some(force), fileProbe, commandProbe) == Ok(true)
    ensures IsGnu(LINUX, Some(Lit("TRUE")), fileProbe, commandProbe) == Ok(true)
  {
    assert EqualsIgnoreCase(Lit("true"), Lit("TRUE")) by {
      assert ToLower(Lit("TRUE")) == Lit("true");
    }
  }

  /**
   * Without the override, a file probe that succeeds decides and the command is
   * never consulted; the command decides only when the file probe failed.
   */
  lemma ProbeOrder(forceGnu: Option<JString>, ldd: JString, c: ProbeOutcome, c': ProbeOutcome)
    requires !(forceGnu.Some? && EqualsIgnoreCase(Lit("true"), forceGnu.value))
    ensures IsGnu(LINUX, forceGnu, Read(ldd), c) == Ok(FileProbeAnswer(ldd))
    ensures IsGnu(LINUX, forceGnu, Read(ldd), c) == IsGnu(LINUX, forceGnu, Read(ldd), c')
    ensures c.Read? ==> IsGnu(LINUX, forceGnu, Failed, c) == Ok(CommandProbeAnswer(c.text))
    ensures IsGnu(LINUX, forceGnu, Failed, Failed) == Ok(true)
  {
  }

  /** The property is compared with "true" and nothing else: "yes" forces nothing. */
  lemma OnlyTrueForces(fileProbe: ProbeOutcome, commandProbe: ProbeOutcome)
    ensures IsGnu(LINUX, Some(Lit("yes")), fileProbe, commandProbe)
        == IsGnu(LINUX, None, fileProbe, commandProbe)
  {
    assert !EqualsIgnoreCase(Lit("true"), Lit("yes")) by {
      assert |Lit("yes")| == 3;
    }
  }

  /*
   * The command probe hands one command line to `Runtime.exec(String)`, which
   * splits it with a `StringTokenizer` on white space and knows nothing of
   * shell quotes.
   */

  /** The default delimiters of `java.util.StringTokenizer`: space, tab, newline, carriage return, form feed. */
  predicate IsTokenDelimiter(c: JChar)
  {
    c == ' ' as int || c == '\t' as int || c == '\n' as int || c == '\r' as int || c == 0x0C
  }

  predicate NoDelimiter(w: JString)
  {
    forall i :: 0 <= i < |w| ==> !IsTokenDelimiter(w[i])
  }

  /** The length of the token at the front of `s`. */
  function TokenLength(s: JString): (n: nat)
    ensures n <= |s| && NoDelimiter(s[..n])
    ensures n < |s| ==> IsTokenDelimiter(s[n])
  {
    if |s| == 0 || IsTokenDelimiter(s[0]) then 0
    else
      var n := 1 + TokenLength(s[1..]);
      assert s[..n] == [s[0]] + s[1..][..n - 1];
      n
  }

  /** The tokens `StringTokenizer` yields, which `exec` takes as the argument vector. */
  function Tokens(s: JString): (ts: seq<JString>)
    ensures forall i :: 0 <= i < |ts| ==> |ts[i]| > 0 && NoDelimiter(ts[i])
    decreases |s|
  {
    if |s| == 0 then []
    else if IsTokenDelimiter(s[0]) then Tokens(s[1..])
    else
      var n := TokenLength(s);
      [s[..n]] + Tokens(s[n..])
  }

  /** Words joined by single spaces, the way a command line is written. */
  function JoinWords(ws: seq<JString>): JString
  {
    if |ws| == 0 then []
    else if |ws| == 1 then ws[0]
    else ws[0] + [' ' as int] + JoinWords(ws[1..])
  }

  lemma {:induction false} TokenLengthOfWord(w: JString, rest: JString)
    requires NoDelimiter(w)
    requires |rest| == 0 || IsTokenDelimiter(rest[0])
    ensures TokenLength(w + rest) == |w|
  {
    if |w| > 0 {
      assert (w + rest)[1..] == w[1..] + rest;
      TokenLengthOfWord(w[1..], rest);
    }
  }

  /** Tokenizing words joined by spaces gives the words back, when none is empty or holds a delimiter. */
  lemma {:induction false} TokensOfJoinedWords(ws: seq<JString>)
    requires forall i :: 0 <= i < |ws| ==> |ws[i]| > 0 && NoDelimiter(ws[i])
    ensures Tokens(JoinWords(ws)) == ws
  {
    if |ws| == 1 {
      TokenLengthOfWord(ws[0], []);
      assert ws[0] + [] == ws[0];
      assert ws[0][|ws[0]|..] == [];
    } else if |ws| > 1 {
      var s := JoinWords(ws);
      var tail := JoinWords(ws[1..]);
      assert s == ws[0] + ([' ' as int] + tail);
      TokenLengthOfWord(ws[0], [' ' as int] + tail);
      assert s[..|ws[0]|] == ws[0];
      assert s[|ws[0]|..] == [' ' as int] + tail;
      assert ([' ' as int] + tail)[1..] == tail;
      TokensOfJoinedWords(ws[1..]);
    }
  }

  /** `sh -c '<script>'`, a script quoted on a shell command line. */
  function ShCommandLine(script: seq<JString>): JString
  {
    Lit("sh -c '") + JoinWords(script) + Lit("'")
  }

  /** A word followed by a space is the next token, and tokenizing goes on after the space. */
  lemma TokensOfWordThenSpace(w: JString, rest: JString)
    requires |w| > 0 && NoDelimiter(w)
    ensures Tokens(w + ([' ' as int] + rest)) == [w] + Tokens(rest)
  {
    var s := w + ([' ' as int] + rest);
    TokenLengthOfWord(w, [' ' as int] + rest);
    assert s[..|w|] == w;
    assert s[|w|..] == [' ' as int] + rest;
    assert ([' ' as int] + rest)[1..] == rest;
  }

  /** A quoted script of two or more words, cut at the space after its first word. */
  lemma ShCommandLineParts(ws: seq<JString>)
    requires |ws| >= 2
    ensures ShCommandLine(ws)
      == Lit("sh") + ([' ' as int] + (Lit("-c") + ([' ' as int] + ((Lit("'") + ws[0]) + ([' ' as int] + (JoinWords(ws[1..]) + Lit("'")))))))
  {
    var sp: JString := [' ' as int];
    assert JoinWords(ws) == ws[0] + sp + JoinWords(ws[1..]);
    assert Lit("sh -c '") == Lit("sh") + sp + Lit("-c") + sp + Lit("'");
  }

  /** A word after a quote is still one token. */
  lemma QuotedWordIsToken(w: JString)
    requires NoDelimiter(w)
    ensures |Lit("'") + w| > 0 && NoDelimiter(Lit("'") + w)
  {
    var q := Lit("'");
    assert !IsTokenDelimiter(q[0]);
    assert forall i :: 1 <= i < |q + w| ==> (q + w)[i] == w[i - 1];
  }

  /**
   * As written: `exec(String)` splits a quoted script at its spaces, so `sh`
   * receives only the first word, behind an unterminated quote, as its script;
   * the other words become positional parameters.
   */
  lemma ExecSplitsQuotedScript(ws: seq<JString>)
    requires |ws| >= 2 && |ws[0]| > 0 && NoDelimiter(ws[0]) && ws[0][0] != '\'' as int
    ensures var argv := Tokens(ShCommandLine(ws));
      |argv| >= 3 && argv[0] == Lit("sh") && argv[1] == Lit("-c")
      && argv[2] == Lit("'") + ws[0] && argv[2] != JoinWords(ws)
  {
    var sp: JString := [' ' as int];
    var word := Lit("'") + ws[0];
    var tail := JoinWords(ws[1..]) + Lit("'");
    ShCommandLineParts(ws);
    QuotedWordIsToken(ws[0]);
    assert NoDelimiter(Lit("sh")) && NoDelimiter(Lit("-c"));
    TokensOfWordThenSpace(word, tail);
    TokensOfWordThenSpace(Lit("-c"), word + (sp + tail));
    TokensOfWordThenSpace(Lit("sh"), Lit("-c") + (sp + (word + (sp + tail))));
    FirstCharDiffers(ws);
  }

  /** The quoted first word starts with a quote, the script with its first word. */
  lemma FirstCharDiffers(ws: seq<JString>)
    requires |ws| >= 2 && |ws[0]| > 0 && ws[0][0] != '\'' as int
    ensures Lit("'") + ws[0] != JoinWords(ws)
  {
    assert (Lit("'") + ws[0])[0] == '\'' as int;
    assert JoinWords(ws) == ws[0] + [' ' as int] + JoinWords(ws[1..]);
    assert JoinWords(ws)[0] == ws[0][0];
  }

  /**
   * The script `isGNUViaCommand` quotes on the command line it passes to
   * `Runtime.exec(String)`: the two probes, each allowed to fail.
   */
  const ProbeScript: seq<JString> := [
    Lit("getconf"), Lit("GNU_LIBC_VERSION"), Lit("2>&1"), Lit("||"), Lit("true;"),
    Lit("ldd"), Lit("--version"), Lit("2>&1"), Lit("||"), Lit("true")]

  /** The probe's script has the shape `ExecSplitsQuotedScript` needs, so `sh` is given `'getconf`. */
  lemma ProbeCommandAsExecuted()
    ensures |ProbeScript| >= 2 && |ProbeScript[0]| > 0 && NoDelimiter(ProbeScript[0])
    ensures ProbeScript[0][0] != '\'' as int
    ensures Lit("'") + ProbeScript[0] == Lit("'getconf")
  {
    var first := ProbeScript[0];
    assert first == Lit("getconf");
  }

  /** Corrected: the argument vector `sh`, `-c`, script, as `exec(String[])` would take it. */
  function ShArgv(script: seq<JString>): (argv: seq<JString>)
    ensures |argv| == 3 && argv[0] == Lit("sh") && argv[1] == Lit("-c")
    ensures ShCommandLine(script) == Lit("sh -c '") + argv[2] + Lit("'")
  {
    [Lit("sh"), Lit("-c"), JoinWords(script)]
  }

  /**
   * The two differ in the script `sh` runs: the corrected vector passes the
   * whole quoted text, the tokenized command line only its first word.
   */
  lemma ArgvVersusTokens(ws: seq<JString>)
    requires |ws| >= 2 && |ws[0]| > 0 && NoDelimiter(ws[0]) && ws[0][0] != '\'' as int
    ensures ShArgv(ws)[2] == JoinWords(ws)
    ensures |Tokens(ShCommandLine(ws))| >= 3 && Tokens(ShCommandLine(ws))[2] != ShArgv(ws)[2]
  {
    ExecSplitsQuotedScript(ws);
  }
}
