/**
 * `ArchFamily`: the CPU families the loader knows, the regex each is recognised
 * by in the `os.arch` property, and the LLVM target-triple architecture names
 * (`getArchTarget`) chosen by word size and byte order.
 */
module ArchFamilies {
  import opened JavaText
  import opened RegexLite
  import opened EnumScan

  datatype ArchFamily = X86 | ARM | PPC | SPARC | MIPS | S390 | RISCV
  {
    /** `toString()`. */
    function Name(): string
    {
      match this
      case X86 => "x86"
      case ARM => "arm"
      case PPC => "ppc"
      case SPARC => "sparc"
      case MIPS => "mips"
      case S390 => "s390"
      case RISCV => "riscv"
    }

    /** The `isUsuallyBigEndian` flag of the enum constant. */
    predicate IsUsuallyBigEndian()
    {
      this == PPC || this == SPARC || this == MIPS || this == S390
    }

    /** The regex of the enum constant, as an alternation. */
    function Pattern(): Pattern
    {
      match this
      case X86 =>
        [Literal("x86"), [Char('i' as int), Digit, Char('8' as int), Char('6' as int)],
         Literal("ia32"), Literal("amd64"), Literal("ia64"), Literal("itanium64")]
      case ARM => [Literal("arm"), Literal("aarch")]
      case PPC => [Literal("ppc"), Literal("power")]
      case SPARC => [Literal("sparc")]
      case MIPS => [Literal("mips")]
      case S390 => [Literal("s390")]
      case RISCV => [Literal("riscv")]
    }

    /**
     * `getArchTarget(wordSize, isBigEndian)`: the architecture part of an LLVM
     * target triple. The Java switch has a case for every constant, so the
     * `throw` after it is never reached and this function is total. The name
     * agrees with every entry of the independent `TargetTable`: a word size of
     * 64 selects the 64-bit column and every other word size, -1 included, the
     * 32-bit one.
     */
    function ArchTarget(wordSize: int, isBigEndian: bool): (r: string)
      ensures forall k :: 0 <= k < |TargetTable| ==>
        (TargetTable[k].family == this && TargetTable[k].Entry(wordSize == 64, isBigEndian).Some? ==>
          r == TargetTable[k].Entry(wordSize == 64, isBigEndian).value)
    {
      match this
      case ARM =>
        if wordSize == 64 then (if isBigEndian then "aarch64_be" else "aarch64")
        else (if isBigEndian then "armeb" else "arm")
      case MIPS =>
        if wordSize == 64 then (if isBigEndian then "mips64" else "mips64el")
        else (if isBigEndian then "mips" else "mipsel")
      case PPC =>
        if wordSize == 64 then (if isBigEndian then "ppc64" else "ppc64le")
        else (if isBigEndian then "ppc" else "ppcle")
      case RISCV => if wordSize == 64 then "riscv64" else "riscv32"
      case S390 => "systemz"
      case SPARC => if wordSize == 64 then "sparcv9" else (if isBigEndian then "sparc" else "sparcel")
      case X86 => if wordSize == 64 then "x86_64" else "x86"
    }

    /**
     * `getArchTarget(wordSize)`: the family's usual byte order stands in for the
     * host's; PPC, SPARC, MIPS and S390 are usually big-endian, the rest little-endian.
     */
    function UsualArchTarget(wordSize: int): (r: string)
      ensures this in {PPC, SPARC, MIPS, S390} ==> r == ArchTarget(wordSize, true)
      ensures this in {X86, ARM, RISCV} ==> r == ArchTarget(wordSize, false)
    {
      ArchTarget(wordSize, IsUsuallyBigEndian())
    }
  }

  /** `ArchFamily.values()`, in declaration order. */
  const ArchValues: seq<ArchFamily> := [X86, ARM, PPC, SPARC, MIPS, S390, RISCV]

  /** The test applied to each constant: its regex is found in the lowered `os.arch`. */
  function ArchMatcher(osArch: JString): ArchFamily -> bool
  {
    (a: ArchFamily) => Find(a.Pattern(), osArch)
  }

  /** The lowered `os.arch` property, "<blank>" when it is unset. */
  function LoweredArch(osArch: Option<JString>): JString
  {
    ToLower(osArch.GetOr(Lit("<blank>")))
  }

  /**
   * What `ArchFamily.get()` returns or throws: a family whose regex is found in
   * the lowered `os.arch`, or the exception naming that lowered text.
   */
  function ArchFamilyOf(osArch: Option<JString>): (r: Result<ArchFamily, Exception>)
    ensures r.Ok? ==> Find(r.value.Pattern(), LoweredArch(osArch))
    ensures r.Err? ==> r.error == UnsupportedOperationException(Lit("Unknown cpu arch: ") + LoweredArch(osArch))
  {
    var arch := LoweredArch(osArch);
    FirstWhereNone(ArchValues, ArchMatcher(arch));
    match FirstWhere(ArchValues, ArchMatcher(arch))
    case Some(a) => Ok(a)
    case None => Err(UnsupportedOperationException(Lit("Unknown cpu arch: ") + arch))
  }

  /** `ArchFamily.get()`: scan `values()` in order and return the first whose regex is found. */
  method GetArchFamily(osArch: Option<JString>) returns (r: Result<ArchFamily, Exception>)
    ensures r == ArchFamilyOf(osArch)
  {
    var arch := ToLower(if osArch.Some? then osArch.value else Lit("<blank>"));
    for i := 0 to |ArchValues|
      invariant FirstWhere(ArchValues, ArchMatcher(arch)) == FirstWhere(ArchValues[i..], ArchMatcher(arch))
    {
      var a := ArchValues[i];
      FirstWhereStep(ArchValues, ArchMatcher(arch), i);
      if Find(a.Pattern(), arch) {
        return Ok(a);
      }
    }
    return Err(UnsupportedOperationException(Lit("Unknown cpu arch: ") + arch));
  }

  /* ---------------- the target-triple table ---------------- */

  /**
   * One row of a table of LLVM target-triple names: the name for each
   * combination of (64-bit?, big-endian?); None where the table has no entry.
   */
  datatype TargetRow = TargetRow(family: ArchFamily,
                                 be64: Option<string>, le64: Option<string>,
                                 be32: Option<string>, le32: Option<string>)
  {
    function Entry(is64: bool, isBigEndian: bool): Option<string>
    {
      if is64 then (if isBigEndian then be64 else le64) else (if isBigEndian then be32 else le32)
    }
  }

  /** The table, an independent statement of what `getArchTarget` is meant to return. */
  const TargetTable: seq<TargetRow> := [
    TargetRow(X86,   None,               Some("x86_64"),   None,            Some("x86")),
    TargetRow(ARM,   Some("aarch64_be"), Some("aarch64"),  Some("armeb"),   Some("arm")),
    TargetRow(PPC,   Some("ppc64"),      Some("ppc64le"),  Some("ppc"),     Some("ppcle")),
    TargetRow(MIPS,  Some("mips64"),     Some("mips64el"), Some("mips"),    Some("mipsel")),
    TargetRow(SPARC, Some("sparcv9"),    Some("sparcv9"),  Some("sparc"),   Some("sparcel")),
    TargetRow(S390,  Some("systemz"),    Some("systemz"),  Some("systemz"), Some("systemz")),
    TargetRow(RISCV, Some("riscv64"),    Some("riscv64"),  Some("riscv32"), Some("riscv32"))
  ]

  /** Every family has a row, so the table and the switch cover the same constants. */
  lemma TargetTableCoversFamilies(f: ArchFamily)
    ensures exists k :: 0 <= k < |TargetTable| && TargetTable[k].family == f
  {
    var k := match f case X86 => 0 case ARM => 1 case PPC => 2 case MIPS => 3
                     case SPARC => 4 case S390 => 5 case RISCV => 6;
    assert TargetTable[k].family == f;
  }

  /**
   * Where the table is silent (X86, big-endian) the code ignores the byte order;
   * so do RISCV, S390 and 64-bit SPARC; and any word size but 64 acts as 32.
   */
  lemma ArchTargetIgnores(f: ArchFamily, wordSize: int, isBigEndian: bool)
    ensures f in {X86, RISCV, S390} ==> f.ArchTarget(wordSize, isBigEndian) == f.ArchTarget(wordSize, !isBigEndian)
    ensures wordSize == 64 && f == SPARC ==> f.ArchTarget(wordSize, isBigEndian) == "sparcv9"
    ensures wordSize != 64 ==> f.ArchTarget(wordSize, isBigEndian) == f.ArchTarget(32, isBigEndian)
  {
  }

  /** `getArchTarget(wordSize)` uses the family's usual byte order: big-endian for PPC, SPARC, MIPS, S390. */
  lemma UsualArchTargets()
    ensures X86.UsualArchTarget(64) == "x86_64" && ARM.UsualArchTarget(64) == "aarch64"
    ensures PPC.UsualArchTarget(64) == "ppc64" && MIPS.UsualArchTarget(64) == "mips64"
    ensures SPARC.UsualArchTarget(32) == "sparc" && S390.UsualArchTarget(64) == "systemz"
    ensures RISCV.UsualArchTarget(-1) == "riscv32"
  {
  }

  /* ---------------- classification ---------------- */

  lemma ArchValuesDistinct()
    ensures Distinct(ArchValues)
  {
  }

  /**
   * `ArchFamily.get()` returns the k-th family exactly when its regex is found
   * in the lowered `os.arch` and no earlier family's is.
   */
  lemma ArchFamilyOfFirstMatch(osArch: Option<JString>, k: nat)
    requires k < |ArchValues|
    ensures ArchFamilyOf(osArch) == Ok(ArchValues[k])
        <==> Find(ArchValues[k].Pattern(), LoweredArch(osArch))
             && forall j :: 0 <= j < k ==> !Find(ArchValues[j].Pattern(), LoweredArch(osArch))
  {
    ArchValuesDistinct();
    FirstWhereIff(ArchValues, ArchMatcher(LoweredArch(osArch)), k);
  }

  /** `ArchFamily.get()` throws exactly when no family's regex is found. */
  lemma ArchFamilyOfUnknown(osArch: Option<JString>)
    ensures ArchFamilyOf(osArch).Err?
        <==> forall k :: 0 <= k < |ArchValues| ==> !Find(ArchValues[k].Pattern(), LoweredArch(osArch))
  {
    FirstWhereNone(ArchValues, ArchMatcher(LoweredArch(osArch)));
  }

  /** "AMD64" is recognised as X86, case notwithstanding. */
  lemma Amd64IsX86()
    ensures ArchFamilyOf(Some(Lit("AMD64"))) == Ok(X86)
  {
    var arch := LoweredArch(Some(Lit("AMD64")));
    assert arch == Lit("amd64");
    assert MatchesAt(X86.Pattern()[3], arch, 0);
    FirstWhereAt(ArchValues, ArchMatcher(arch), 0);
  }
}
