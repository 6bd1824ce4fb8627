/**
 * `PlatformUtil.getWordSize()`: the JVM's word size, read from the first of
 * three system properties that says something. The properties are parameters
 * here; `None` is a property that is not set.
 */
module PlatformUtils {
  import opened JavaText

  /** `Integer.parseInt`, with its `NumberFormatException`. */
  function ParseWordSize(s: JString): (r: Result<int, Exception>)
    ensures r.Ok? <==> ParseInt(s).Some?
    ensures r.Ok? ==> r.value == ParseInt(s).value
    ensures r.Err? ==> r.error == NumberFormatException(s)
  {
    match ParseInt(s)
    case Some(v) => Ok(v)
    case None => Err(NumberFormatException(s))
  }

  /** `sun.arch.data.model` is consulted when it is set to anything but "unknown". */
  predicate SunModelApplies(sunArchDataModel: Option<JString>)
  {
    sunArchDataModel.Some? && sunArchDataModel.value != Lit("unknown")
  }

  /**
   * What `getWordSize()` returns or throws, given `sun.arch.data.model`,
   * `com.ibm.vm.bitmode` and `java.vm.name`.
   */
  function WordSize(sunArchDataModel: Option<JString>, ibmBitmode: Option<JString>, vmName: Option<JString>)
    : (r: Result<int, Exception>)
    ensures r.Ok? ==> IntMin <= r.value <= IntMax
    ensures r.Err? ==> r.error.NumberFormatException? || r.error == NullPointerException
    ensures r == Err(NullPointerException)
        <==> !SunModelApplies(sunArchDataModel) && ibmBitmode.None? && vmName.None?
    ensures !SunModelApplies(sunArchDataModel) && ibmBitmode.None? && vmName.Some? ==>
      r in {Ok(64), Ok(32), Ok(-1)}
  {
    if SunModelApplies(sunArchDataModel) then ParseWordSize(sunArchDataModel.value)
    else if ibmBitmode.Some? then ParseWordSize(ibmBitmode.value)
    else if vmName.None? then Err(NullPointerException)
    else if Contains(vmName.value, Lit("64-bit")) then Ok(64)
    else if Contains(vmName.value, Lit("32-bit")) then Ok(32)
    else Ok(-1)
  }

  /**
   * A usable `sun.arch.data.model` decides alone: the other two properties are
   * not read. Likewise a set `com.ibm.vm.bitmode` makes `java.vm.name` irrelevant.
   */
  lemma WordSizePriority(sun: Option<JString>, ibm: Option<JString>, ibm': Option<JString>,
                         vm: Option<JString>, vm': Option<JString>)
    ensures SunModelApplies(sun) ==> WordSize(sun, ibm, vm) == WordSize(sun, ibm', vm')
    ensures !SunModelApplies(sun) && ibm.Some? ==> WordSize(sun, ibm, vm) == WordSize(sun, ibm, vm')
  {
  }

  /** The decimal text of any 32-bit value, read from either numeric property, is that value. */
  lemma WordSizeReadsDecimal(n: int, vm: Option<JString>)
    requires IntMin <= n <= IntMax
    ensures var text := if n >= 0 then Decimal(n) else Lit("-") + Decimal(-n);
      WordSize(Some(text), None, vm) == Ok(n) && WordSize(Some(Lit("unknown")), Some(text), vm) == Ok(n)
  {
    ParseIntDecimal(n);
    var text := if n >= 0 then Decimal(n) else Lit("-") + Decimal(-n);
    assert text != Lit("unknown") by {
      if n >= 0 {
        assert IsDigit(text[0]);
      } else {
        assert text[0] == '-' as int;
      }
    }
  }

  /** "unknown" is not a number: it sends the lookup on, and anywhere else it is an error. */
  lemma UnknownModelFallsThrough(vm: Option<JString>)
    ensures WordSize(Some(Lit("unknown")), None, vm) == WordSize(None, None, vm)
    ensures WordSize(None, Some(Lit("unknown")), vm) == Err(NumberFormatException(Lit("unknown")))
  {
    var u := Lit("unknown");
    assert |u| == 7 && u[0] == 'u' as int;
    ParseIntRejectsLeadingNonDigit(u);
  }

  /** "64-bit" wins over "32-bit" when a VM name mentions both. */
  lemma VmNameSixtyFourFirst(vm: JString)
    requires Contains(vm, Lit("64-bit"))
    ensures WordSize(None, None, Some(vm)) == Ok(64)
  {
  }

  /** A VM name that mentions "32-bit" and not "64-bit" gives 32. */
  lemma VmNameThirtyTwo(vm: JString)
    requires Contains(vm, Lit("32-bit")) && !Contains(vm, Lit("64-bit"))
    ensures WordSize(None, None, Some(vm)) == Ok(32)
  {
  }

  /** A VM name that mentions neither "64-bit" nor "32-bit" gives -1, the unknown word size. */
  lemma VmNameNeither(vm: JString)
    requires !Contains(vm, Lit("32-bit")) && !Contains(vm, Lit("64-bit"))
    ensures WordSize(None, None, Some(vm)) == Ok(-1)
  {
  }
}
