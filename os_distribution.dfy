/**
 * `OSDistribution`: the distributions inside each OS family. A distribution is
 * chosen for the detected family by scanning the constants in declaration
 * order; plain MS-DOS cannot be recognised from its name and is detected by
 * its `;` path separator instead.
 */
module OSDistributions {
  import opened JavaText
  import opened RegexLite
  import opened EnumScan
  import opened OSFamilies

  datatype OSDistribution =
    | MS_DOS | WINDOWS_9X | WINDOWS_NT | MACOS | SOLARIS | BSD | LINUX | OPEN_VMS | GENERIC
  {
    /**
     * The family the distribution belongs to; the `GENERIC` fallback has none
     * (`null`), and no distribution belongs to the `GENERIC` family.
     */
    function Family(): (r: Option<OSFamily>)
      ensures r.None? <==> this == OSDistribution.GENERIC
      ensures r != Some(OSFamily.GENERIC)
    {
      match this
      case MS_DOS => Some(DOS)
      case WINDOWS_9X => Some(WINDOWS)
      case WINDOWS_NT => Some(WINDOWS)
      case MACOS => Some(UNIX)
      case SOLARIS => Some(UNIX)
      case BSD => Some(UNIX)
      case LINUX => Some(UNIX)
      case OPEN_VMS => Some(VMS)
      case GENERIC => None
    }

    /** The friendly `name` field, which `toString()` returns. */
    function Name(): string
    {
      match this
      case MS_DOS => "MS-DOS"
      case WINDOWS_9X => "Windows 9x"
      case WINDOWS_NT => "Windows NT"
      case MACOS => "macOS"
      case SOLARIS => "Solaris"
      case BSD => "BSD"
      case LINUX => "Linux"
      case OPEN_VMS => "OpenVMS"
      case GENERIC => "Generic"
    }

    /** The "standard" `target` name. */
    function Target(): string
    {
      match this
      case MS_DOS => "MSDOS"
      case WINDOWS_9X => "MSDOS"
      case WINDOWS_NT => "Windows"
      case MACOS => "macOS"
      case SOLARIS => "Solaris"
      case BSD => "BSD"
      case LINUX => "Linux"
      case OPEN_VMS => "VMS"
      case GENERIC => "Generic"
    }

    /**
     * The regex searched for in the lowered `os.name`. MS-DOS's regex is a
     * placeholder that no real name contains; "windows (95|98|me|ce)" is
     * written as its four alternatives.
     */
    function Pattern(): Pattern
    {
      match this
      case MS_DOS => [Literal("<manually detected>")]
      case WINDOWS_9X =>
        [Literal("windows 95"), Literal("windows 98"), Literal("windows me"), Literal("windows ce")]
      case WINDOWS_NT => [Literal("win")]
      case MACOS => [Literal("mac"), Literal("darwin")]
      case SOLARIS => [Literal("sun"), Literal("solaris")]
      case BSD => [Literal("bsd")]
      case LINUX => [Literal("nux")]
      case OPEN_VMS => [Literal("vms")]
      case GENERIC => [Literal("")]
    }
  }

  /** `OSDistribution.values()`, in declaration order. */
  const DistributionValues: seq<OSDistribution> :=
    [MS_DOS, WINDOWS_9X, WINDOWS_NT, MACOS, SOLARIS, BSD, LINUX, OPEN_VMS, OSDistribution.GENERIC]

  /** The test on the regex alone: the constant's regex is found in the name. */
  function RegexMatcher(osName: JString): OSDistribution -> bool
  {
    (d: OSDistribution) => Find(d.Pattern(), osName)
  }

  /** A test restricted to the constants of one family. */
  function InFamily(family: OSFamily, found: OSDistribution -> bool): OSDistribution -> bool
  {
    (d: OSDistribution) => d.Family() == Some(family) && found(d)
  }

  /** The test the scan applies to each constant: same family, and its regex is found. */
  function DistributionMatcher(family: OSFamily, osName: JString): OSDistribution -> bool
  {
    InFamily(family, RegexMatcher(osName))
  }

  /** The DOS test on the `path.separator` property, read with "" as its default. */
  predicate IsDosSeparator(pathSeparator: Option<JString>)
  {
    pathSeparator.GetOr([]) == Lit(";")
  }

  /**
   * What `OSDistribution.get(family)` returns for the given system properties:
   * the `GENERIC` fallback or a distribution of the requested family, whose
   * regex is found in the lowered `os.name` unless the DOS separator chose it.
   */
  function DistributionOf(family: OSFamily, pathSeparator: Option<JString>, osName: Option<JString>)
    : (r: OSDistribution)
    ensures r != OSDistribution.GENERIC ==> r.Family() == Some(family)
    ensures r != OSDistribution.GENERIC && !(family == DOS && IsDosSeparator(pathSeparator)) ==>
      Find(r.Pattern(), LoweredName(osName))
  {
    FirstWhereNone(DistributionValues, DistributionMatcher(family, LoweredName(osName)));
    if family == DOS && IsDosSeparator(pathSeparator) then MS_DOS
    else FirstWhere(DistributionValues, DistributionMatcher(family, LoweredName(osName))).GetOr(OSDistribution.GENERIC)
  }

  /** `OSDistribution.get(family)`: the DOS separator test, then the scan, then the fallback. */
  method GetDistribution(family: OSFamily, pathSeparator: Option<JString>, osName: Option<JString>)
    returns (d: OSDistribution)
    ensures d == DistributionOf(family, pathSeparator, osName)
  {
    if family == DOS && IsDosSeparator(pathSeparator) {
      return MS_DOS;
    }
    var name := LoweredName(osName);
    ghost var matcher := DistributionMatcher(family, name);
    assert DistributionOf(family, pathSeparator, osName) == FirstWhere(DistributionValues, matcher).GetOr(OSDistribution.GENERIC);
    for i := 0 to |DistributionValues|
      invariant FirstWhere(DistributionValues, matcher) == FirstWhere(DistributionValues[i..], matcher)
    {
      var e := DistributionValues[i];
      FirstWhereStep(DistributionValues, matcher, i);
      if e.Family() != Some(family) {
        continue;
      }
      if Find(e.Pattern(), name) {
        return e;
      }
    }
    assert DistributionValues[|DistributionValues|..] == [];
    return OSDistribution.GENERIC;
  }

  lemma DistributionValuesDistinct()
    ensures Distinct(DistributionValues)
  {
  }

  /**
   * The scan written family by family: the distributions of each family in
   * the order they are declared, the first whose test passes. A reference
   * definition for the loop over all constants.
   */
  function FirstOfFamily(family: OSFamily, found: OSDistribution -> bool): (r: Option<OSDistribution>)
    ensures r.Some? ==> r.value.Family() == Some(family) && found(r.value)
  {
    match family
    case DOS => if found(MS_DOS) then Some(MS_DOS) else None
    case WINDOWS =>
      if found(WINDOWS_9X) then Some(WINDOWS_9X)
      else if found(WINDOWS_NT) then Some(WINDOWS_NT)
      else None
    case UNIX =>
      if found(MACOS) then Some(MACOS)
      else if found(SOLARIS) then Some(SOLARIS)
      else if found(BSD) then Some(BSD)
      else if found(LINUX) then Some(LINUX)
      else None
    case VMS => if found(OPEN_VMS) then Some(OPEN_VMS) else None
    case GENERIC => None
  }

  /** Scanning all constants with a family-restricted test is scanning that family's constants in order. */
  lemma ScanIsFirstOfFamily(family: OSFamily, found: OSDistribution -> bool)
    ensures FirstWhere(DistributionValues, InFamily(family, found)) == FirstOfFamily(family, found)
  {
    FirstWhereSuffix(DistributionValues, InFamily(family, found), 0);
    assert DistributionValues[0..] == DistributionValues;
    FromStartIsFirstOfFamily(family, found);
  }

  /** The positional scan from the start agrees with the family-by-family reference. */
  lemma FromStartIsFirstOfFamily(family: OSFamily, found: OSDistribution -> bool)
    ensures FirstWhereFrom(DistributionValues, InFamily(family, found), 0) == FirstOfFamily(family, found)
  {
    assert FirstWhereFrom(DistributionValues, InFamily(family, found), 8) == None;
    assert FirstWhereFrom(DistributionValues, InFamily(family, found), 7) == if family == VMS && found(OPEN_VMS) then Some(OPEN_VMS) else None;
    match family
    case DOS =>
      assert FirstWhereFrom(DistributionValues, InFamily(family, found), 1) == None;
    case WINDOWS =>
      assert FirstWhereFrom(DistributionValues, InFamily(family, found), 3) == None;
    case UNIX =>
      assert FirstWhereFrom(DistributionValues, InFamily(family, found), 6) == if found(LINUX) then Some(LINUX) else None;
      assert FirstWhereFrom(DistributionValues, InFamily(family, found), 3) == FirstOfFamily(family, found);
    case VMS =>
      assert FirstWhereFrom(DistributionValues, InFamily(family, found), 1) == FirstWhereFrom(DistributionValues, InFamily(family, found), 7);
    case GENERIC =>
      assert FirstWhereFrom(DistributionValues, InFamily(family, found), 1) == None;
  }

  /** Outside the DOS separator case, `get` is the family-by-family scan of the regexes, or `GENERIC`. */
  lemma DistributionByFamily(family: OSFamily, pathSeparator: Option<JString>, osName: Option<JString>)
    requires !(family == DOS && IsDosSeparator(pathSeparator))
    ensures DistributionOf(family, pathSeparator, osName)
        == FirstOfFamily(family, RegexMatcher(LoweredName(osName))).GetOr(OSDistribution.GENERIC)
  {
    ScanIsFirstOfFamily(family, RegexMatcher(LoweredName(osName)));
  }

  /**
   * Outside the DOS separator case the scan is a first match: the result is the
   * k-th constant exactly when it belongs to the family, its regex is found,
   * and no earlier constant passes both tests.
   */
  lemma DistributionOfFirstMatch(family: OSFamily, pathSeparator: Option<JString>, osName: Option<JString>, k: nat)
    requires !(family == DOS && IsDosSeparator(pathSeparator))
    requires k < |DistributionValues| - 1
    ensures DistributionOf(family, pathSeparator, osName) == DistributionValues[k]
        <==> DistributionMatcher(family, LoweredName(osName))(DistributionValues[k])
             && forall j :: 0 <= j < k ==> !DistributionMatcher(family, LoweredName(osName))(DistributionValues[j])
  {
    var p := DistributionMatcher(family, LoweredName(osName));
    DistributionValuesDistinct();
    FirstWhereOrIff(DistributionValues, p, k, OSDistribution.GENERIC);
    assert DistributionOf(family, pathSeparator, osName) == FirstWhere(DistributionValues, p).GetOr(OSDistribution.GENERIC);
  }

  /**
   * Outside the DOS separator case, `GENERIC` is returned exactly when no
   * distribution of the family has its regex found in the name.
   */
  lemma DistributionGenericIffNoMatch(family: OSFamily, pathSeparator: Option<JString>, osName: Option<JString>)
    requires !(family == DOS && IsDosSeparator(pathSeparator))
    ensures DistributionOf(family, pathSeparator, osName) == OSDistribution.GENERIC
        <==> forall j :: 0 <= j < |DistributionValues| ==> !DistributionMatcher(family, LoweredName(osName))(DistributionValues[j])
  {
    var p := DistributionMatcher(family, LoweredName(osName));
    FirstWhereNone(DistributionValues, p);
    var r := FirstWhere(DistributionValues, p);
    assert DistributionOf(family, pathSeparator, osName) == r.GetOr(OSDistribution.GENERIC);
    if r.Some? {
      assert p(r.value);
      assert r.value.Family() == Some(family);
    }
  }

  /** The `GENERIC` family has no distribution of its own, so it always yields the `GENERIC` distribution. */
  lemma GenericFamilyIsGeneric(pathSeparator: Option<JString>, osName: Option<JString>)
    ensures DistributionOf(OSFamily.GENERIC, pathSeparator, osName) == OSDistribution.GENERIC
  {
    DistributionByFamily(OSFamily.GENERIC, pathSeparator, osName);
  }

  /**
   * In the DOS family the `;` separator decides MS-DOS; without it MS-DOS is
   * chosen only when the name holds the "<manually detected>" placeholder, and
   * every other name falls back to `GENERIC`.
   */
  lemma DosDistribution(pathSeparator: Option<JString>, osName: Option<JString>)
    ensures var d := DistributionOf(DOS, pathSeparator, osName);
      d == MS_DOS || d == OSDistribution.GENERIC
    ensures IsDosSeparator(pathSeparator) ==> DistributionOf(DOS, pathSeparator, osName) == MS_DOS
    ensures !IsDosSeparator(pathSeparator) ==>
      (DistributionOf(DOS, pathSeparator, osName) == MS_DOS
       <==> Find(MS_DOS.Pattern(), LoweredName(osName)))
  {
    if !IsDosSeparator(pathSeparator) {
      DistributionByFamily(DOS, pathSeparator, osName);
    }
  }

  /**
   * Windows 9x is tried before Windows NT: a name such as "windows 98" also
   * contains "win", and still yields Windows 9x.
   */
  lemma Windows9xBeforeNt(pathSeparator: Option<JString>, osName: Option<JString>)
    ensures DistributionOf(WINDOWS, pathSeparator, osName) == WINDOWS_9X
        <==> Find(WINDOWS_9X.Pattern(), LoweredName(osName))
    ensures DistributionOf(WINDOWS, pathSeparator, osName) == WINDOWS_NT
        <==> !Find(WINDOWS_9X.Pattern(), LoweredName(osName)) && Find(WINDOWS_NT.Pattern(), LoweredName(osName))
  {
    DistributionByFamily(WINDOWS, pathSeparator, osName);
  }

  /** In the UNIX family, Linux is chosen only when macOS, Solaris and BSD are all ruled out. */
  lemma LinuxIsTriedLast(pathSeparator: Option<JString>, osName: Option<JString>)
    ensures DistributionOf(UNIX, pathSeparator, osName) == LINUX
        <==> Find(LINUX.Pattern(), LoweredName(osName))
             && !Find(MACOS.Pattern(), LoweredName(osName))
             && !Find(SOLARIS.Pattern(), LoweredName(osName))
             && !Find(BSD.Pattern(), LoweredName(osName))
  {
    DistributionByFamily(UNIX, pathSeparator, osName);
  }

  /** "Windows 98" is Windows 9x although it also contains "win". */
  lemma Windows98Example()
    ensures DistributionOf(WINDOWS, None, Some(Lit("Windows 98"))) == WINDOWS_9X
  {
    var name := LoweredName(Some(Lit("Windows 98")));
    assert name == Lit("windows 98");
    assert MatchesAt(WINDOWS_9X.Pattern()[1], name, 0);
    Windows9xBeforeNt(None, Some(Lit("Windows 98")));
  }
}
