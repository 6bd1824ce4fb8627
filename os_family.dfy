/**
 * `OSFamily`: the operating-system families, each recognised by a regex in the
 * lowered `os.name` property. `GENERIC`'s regex is empty, so it matches every
 * name and the scan always stops by the last constant.
 */
module OSFamilies {
  import opened JavaText
  import opened RegexLite
  import opened EnumScan

  datatype OSFamily = UNIX | WINDOWS | DOS | VMS | GENERIC
  {
    /** The friendly `name` field, which `toString()` returns. */
    function Name(): string
    {
      match this
      case UNIX => "Unix"
      case WINDOWS => "Windows"
      case DOS => "DOS"
      case VMS => "VMS"
      case GENERIC => "Generic"
    }

    function Pattern(): Pattern
    {
      match this
      case UNIX =>
        [Literal("nux"), Literal("bsd"), [AnyChar, Char('i' as int), Char('x' as int)], Literal("sun"),
         Literal("solaris"), Literal("hp-ux"), Literal("mac"), Literal("darwin")]
      case WINDOWS => [Literal("win")]
      case DOS => [Literal("dos")]
      case VMS => [Literal("vms")]
      case GENERIC => [Literal("")]
    }
  }

  /** `OSFamily.values()`, in declaration order. */
  const FamilyValues: seq<OSFamily> := [UNIX, WINDOWS, DOS, VMS, GENERIC]

  function FamilyMatcher(osName: JString): OSFamily -> bool
  {
    (f: OSFamily) => Find(f.Pattern(), osName)
  }

  /** The lowered `os.name` property, "<blank>" when it is unset. */
  function LoweredName(osName: Option<JString>): JString
  {
    ToLower(osName.GetOr(Lit("<blank>")))
  }

  /**
   * What `OSFamily.get()` returns: the first match, or the `GENERIC` fallback;
   * either way a family whose regex is found in the lowered `os.name`.
   */
  function OSFamilyOf(osName: Option<JString>): (r: OSFamily)
    ensures Find(r.Pattern(), LoweredName(osName))
  {
    EmptyPatternFindsAll(LoweredName(osName));
    assert GENERIC.Pattern() == [[]];
    FirstWhereNone(FamilyValues, FamilyMatcher(LoweredName(osName)));
    FirstWhere(FamilyValues, FamilyMatcher(LoweredName(osName))).GetOr(GENERIC)
  }

  /** `OSFamily.get()`: scan `values()` in order, return the first whose regex is found. */
  method GetOSFamily(osName: Option<JString>) returns (f: OSFamily)
    ensures f == OSFamilyOf(osName)
  {
    var name := ToLower(if osName.Some? then osName.value else Lit("<blank>"));
    for i := 0 to |FamilyValues|
      invariant FirstWhere(FamilyValues, FamilyMatcher(name)) == FirstWhere(FamilyValues[i..], FamilyMatcher(name))
    {
      var e := FamilyValues[i];
      FirstWhereStep(FamilyValues, FamilyMatcher(name), i);
      if Find(e.Pattern(), name) {
        return e;
      }
    }
    return GENERIC;
  }

  lemma FamilyValuesDistinct()
    ensures Distinct(FamilyValues)
  {
  }

  /**
   * The scan always finds a family, because GENERIC's empty regex matches; the
   * result is the k-th family exactly when its regex is found and no earlier one's is.
   */
  lemma OSFamilyOfFirstMatch(osName: Option<JString>, k: nat)
    requires k < |FamilyValues|
    ensures FirstWhere(FamilyValues, FamilyMatcher(LoweredName(osName))).Some?
    ensures OSFamilyOf(osName) == FamilyValues[k]
        <==> Find(FamilyValues[k].Pattern(), LoweredName(osName))
             && forall j :: 0 <= j < k ==> !Find(FamilyValues[j].Pattern(), LoweredName(osName))
  {
    var name := LoweredName(osName);
    EmptyPatternFindsAll(name);
    assert GENERIC.Pattern() == [[]];
    FirstWhereNone(FamilyValues, FamilyMatcher(name));
    assert FamilyValues[4] == GENERIC;
    FamilyValuesDistinct();
    FirstWhereIff(FamilyValues, FamilyMatcher(name), k);
  }

  /** GENERIC is returned exactly when none of UNIX, WINDOWS, DOS and VMS matches. */
  lemma OSFamilyGenericIffNoMatch(osName: Option<JString>)
    ensures OSFamilyOf(osName) == GENERIC
        <==> forall j :: 0 <= j < 4 ==> !Find(FamilyValues[j].Pattern(), LoweredName(osName))
  {
    OSFamilyOfFirstMatch(osName, 4);
    EmptyPatternFindsAll(LoweredName(osName));
    assert GENERIC.Pattern() == [[]];
  }

  /** Only the lowered name counts: names that differ in case are classified alike. */
  lemma OSFamilyIgnoresCase(s: JString, t: JString)
    requires ToLower(s) == ToLower(t)
    ensures OSFamilyOf(Some(s)) == OSFamilyOf(Some(t))
  {
  }

  /** "Darwin" contains "win" but is UNIX, the family tried first. */
  lemma DarwinIsUnix()
    ensures OSFamilyOf(Some(Lit("Darwin"))) == UNIX
  {
    var name := LoweredName(Some(Lit("Darwin")));
    assert name == Lit("darwin");
    assert MatchesAt(UNIX.Pattern()[7], name, 0);
    FirstWhereAt(FamilyValues, FamilyMatcher(name), 0);
  }

  /** The code units of "<blank>", the lowered name of an unset `os.name`. */
  const BlankUnits: set<int> := {0x3C, 0x62, 0x6C, 0x61, 0x6E, 0x6B, 0x3E}

  /** An alternative that needs a character "<blank>" lacks never matches it. */
  lemma BlankLacks(alt: Alternative, k: nat)
    requires k < |alt| && alt[k].Char? && alt[k].c !in BlankUnits
    ensures forall i :: !MatchesAt(alt, LoweredName(None), i)
  {
    var name := LoweredName(None);
    assert name == [0x3C, 0x62, 0x6C, 0x61, 0x6E, 0x6B, 0x3E];
    AbsentCharNoMatch(alt, name, k);
  }

  /** No branch of UNIX's regex occurs in "<blank>": each needs a letter it lacks. */
  lemma BlankIsNotUnix()
    ensures !Find(UNIX.Pattern(), LoweredName(None))
  {
    var unix := UNIX.Pattern();
    BlankLacks(unix[0], 1);  // 'u'
    BlankLacks(unix[1], 1);  // 's'
    BlankLacks(unix[2], 1);  // 'i'
    BlankLacks(unix[3], 0);  // 's'
    BlankLacks(unix[4], 0);  // 's'
    BlankLacks(unix[5], 0);  // 'h'
    BlankLacks(unix[6], 0);  // 'm'
    BlankLacks(unix[7], 0);  // 'd'
  }

  /** An unset `os.name` reads as "<blank>", which only GENERIC's empty regex matches. */
  lemma MissingNameIsGeneric()
    ensures OSFamilyOf(None) == GENERIC
  {
    BlankIsNotUnix();
    BlankLacks(WINDOWS.Pattern()[0], 0);
    BlankLacks(DOS.Pattern()[0], 0);
    BlankLacks(VMS.Pattern()[0], 0);
    OSFamilyGenericIffNoMatch(None);
  }
}
