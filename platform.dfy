/**
 * `Platform`: the host description computed once, in field order, when the
 * class is initialised, and the `formatLibrary` helper. `System.getProperty`
 * and `ByteOrder.nativeOrder()` are parameters.
 */
module Platforms {
  import opened JavaText
  import opened ArchFamilies
  import opened OSFamilies
  import opened OSDistributions
  import opened PlatformUtils

  /** The system properties `Platform` and its helpers read; `None` is an unset property. */
  datatype SystemProperties = SystemProperties(
    osArch: Option<JString>,
    osName: Option<JString>,
    pathSeparator: Option<JString>,
    sunArchDataModel: Option<JString>,
    ibmBitmode: Option<JString>,
    vmName: Option<JString>)

  /** The static fields of `Platform`. */
  datatype PlatformInfo = PlatformInfo(
    isBigEndian: bool,
    wordSize: int,
    archFamily: ArchFamily,
    archTarget: string,
    osFamily: OSFamily,
    osDistribution: OSDistribution)

  /**
   * The static initialiser: the fields in declaration order. The first field
   * whose initialiser throws fails the whole class; the exception is its cause.
   */
  function DetectPlatform(props: SystemProperties, nativeBigEndian: bool): (r: Result<PlatformInfo, Exception>)
    ensures r.Err? <==>
      WordSize(props.sunArchDataModel, props.ibmBitmode, props.vmName).Err? || ArchFamilyOf(props.osArch).Err?
    ensures WordSize(props.sunArchDataModel, props.ibmBitmode, props.vmName).Err? ==>
      r == Err(WordSize(props.sunArchDataModel, props.ibmBitmode, props.vmName).error)
    ensures WordSize(props.sunArchDataModel, props.ibmBitmode, props.vmName).Ok? && ArchFamilyOf(props.osArch).Err? ==>
      r == Err(ArchFamilyOf(props.osArch).error)
    ensures r.Ok? ==> r.value.isBigEndian == nativeBigEndian
    ensures r.Ok? ==> r.value.wordSize == WordSize(props.sunArchDataModel, props.ibmBitmode, props.vmName).value
    ensures r.Ok? ==> r.value.archFamily == ArchFamilyOf(props.osArch).value
    ensures r.Ok? ==> r.value.archTarget == r.value.archFamily.ArchTarget(r.value.wordSize, r.value.isBigEndian)
    ensures r.Ok? ==> r.value.osFamily == OSFamilyOf(props.osName)
    ensures r.Ok? ==> r.value.osDistribution == DistributionOf(r.value.osFamily, props.pathSeparator, props.osName)
    ensures r.Ok? ==> r.value.osDistribution == OSDistribution.GENERIC
                      || r.value.osDistribution.Family() == Some(r.value.osFamily)
  {
    match WordSize(props.sunArchDataModel, props.ibmBitmode, props.vmName)
    case Err(e) => Err(e)
    case Ok(wordSize) =>
      match ArchFamilyOf(props.osArch)
      case Err(e) => Err(e)
      case Ok(archFamily) =>
        var osFamily := OSFamilyOf(props.osName);
        var osDistribution := DistributionOf(osFamily, props.pathSeparator, props.osName);
        Ok(PlatformInfo(nativeBigEndian, wordSize, archFamily, archFamily.ArchTarget(wordSize, nativeBigEndian),
                        osFamily, osDistribution))
  }

  /** The extension `formatLibrary` appends for a distribution; none for `GENERIC`. */
  function LibraryExtension(d: OSDistribution): string
  {
    match d
    case MS_DOS => ".exe"
    case WINDOWS_9X => ".dll"
    case WINDOWS_NT => ".dll"
    case MACOS => ".dylib"
    case BSD => ".so"
    case SOLARIS => ".so"
    case LINUX => ".so"
    case OPEN_VMS => ".exe"
    case GENERIC => ""
  }

  /**
   * `formatLibrary(name)`: the name with the distribution's extension,
   * upper-cased on MS-DOS and OpenVMS, lower-cased on the Unix distributions,
   * kept as given on Windows, and the bare name on `GENERIC`.
   */
  function FormatLibrary(d: OSDistribution, name: JString): (r: JString)
    ensures |r| == |name| + |LibraryExtension(d)|
    ensures EqualsIgnoreCase(r, name + Lit(LibraryExtension(d)))
    ensures d in {WINDOWS_9X, WINDOWS_NT, OSDistribution.GENERIC} ==> r == name + Lit(LibraryExtension(d))
    ensures d in {MS_DOS, OPEN_VMS} ==> forall i :: 0 <= i < |r| ==> !IsAsciiLower(r[i])
    ensures d in {MACOS, BSD, SOLARIS, LINUX} ==> forall i :: 0 <= i < |r| ==> !IsAsciiUpper(r[i])
  {
    var file := name + Lit(LibraryExtension(d));
    ToLowerOfUpper(file);
    ToLowerIdempotent(file);
    match d
    case MS_DOS => ToUpper(file)
    case WINDOWS_9X => file
    case WINDOWS_NT => file
    case MACOS => ToLower(file)
    case BSD => ToLower(file)
    case SOLARIS => ToLower(file)
    case LINUX => ToLower(file)
    case OPEN_VMS => ToUpper(file)
    case GENERIC => name
  }

  /** Every distribution but `GENERIC` gets a dot and a suffix of at least two letters. */
  lemma LibraryExtensionShape(d: OSDistribution)
    ensures LibraryExtension(d) == "" <==> d == OSDistribution.GENERIC
    ensures LibraryExtension(d) != "" ==> LibraryExtension(d)[0] == '.' && |LibraryExtension(d)| >= 3
  {
  }

  /** On Linux, "WebView" becomes "webview.so": no "lib" prefix is added. */
  lemma FormatLibraryLinuxExample()
    ensures FormatLibrary(LINUX, Lit("WebView")) == Lit("webview.so")
  {
    LitAppend("WebView", ".so");
    assert FormatLibrary(LINUX, Lit("WebView")) == ToLower(Lit("WebView.so"));
    LoweredLibraryName();
  }

  /** The lower-case form of "WebView.so". */
  lemma LoweredLibraryName()
    ensures ToLower(Lit("WebView.so")) == Lit("webview.so")
  {
  }

  /** On Windows NT the name keeps its case: "WebView.dll". */
  lemma FormatLibraryWindowsExample()
    ensures FormatLibrary(WINDOWS_NT, Lit("WebView")) == Lit("WebView.dll")
  {
    LitAppend("WebView", ".dll");
  }

  /** On MS-DOS the whole file name is upper-cased: "WEBVIEW.EXE". */
  lemma FormatLibraryDosExample()
    ensures FormatLibrary(MS_DOS, Lit("WebView")) == Lit("WEBVIEW.EXE")
  {
    LitAppend("WebView", ".exe");
    assert FormatLibrary(MS_DOS, Lit("WebView")) == ToUpper(Lit("WebView.exe"));
    UpperedLibraryName();
  }

  /** The upper-case form of "WebView.exe". */
  lemma UpperedLibraryName()
    ensures ToUpper(Lit("WebView.exe")) == Lit("WEBVIEW.EXE")
  {
  }
}
