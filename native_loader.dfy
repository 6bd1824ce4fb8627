/**
 * `NativeLoader`: chooses the bundled native libraries for the host, copies
 * each one next to the working directory and links it. The class path, the
 * file system and the linker are parameters: `extract` says what copying a
 * resource (looked up by its lower-cased path) does, `link` whether
 * `System.load` accepts a file.
 */
module NativeLoaders {
  import opened JavaText
  import opened OSDistributions

  const Slash: JChar := '/' as int

  /** The class-path directory of the libraries built for one architecture target. */
  function NativesDir(archTarget: JString): JString
  {
    Lit("/natives/") + archTarget + [Slash]
  }

  /** The path of a library file inside a directory. */
  function InDir(dir: JString, name: JString): JString
  {
    dir + [Slash] + name
  }

  /**
   * `getLibraries()`: the resource paths of the libraries to load, in load
   * order, or None (`null`) when the distribution has no bundled library.
   * `isGnu` is the answer of `Platform.isGNU()`, which is asked on Linux only.
   */
  function Libraries(d: OSDistribution, archTarget: JString, isGnu: bool): (libs: Option<seq<JString>>)
    ensures libs.Some? <==> d in {LINUX, MACOS, WINDOWS_NT}
    ensures libs.Some? ==> forall i :: 0 <= i < |libs.value| ==> Prefix(NativesDir(archTarget), libs.value[i])
  {
    var dir := NativesDir(archTarget);
    match d
    case LINUX => Some([InDir(dir + Lit("linux/") + Lit(if isGnu then "gnu" else "musl"), Lit("libwebview.so"))])
    case MACOS => Some([InDir(dir + Lit("macos"), Lit("libwebview.dylib"))])
    case WINDOWS_NT =>
      Some([InDir(dir + Lit("windows_nt"), Lit("webview2loader.dll")), InDir(dir + Lit("windows_nt"), Lit("webview.dll"))])
    case _ => None
  }

  predicate Prefix(p: JString, s: JString)
  {
    |p| <= |s| && s[..|p|] == p
  }

  /** `File.getName()` of a resource path: what follows its last `/`. */
  function Basename(path: JString): (name: JString)
    ensures Slash !in name
    ensures exists k :: 0 <= k <= |path| && path[k..] == name && (k == 0 || path[k - 1] == Slash)
  {
    if |path| == 0 then
      assert path[0..] == [];
      []
    else if path[|path| - 1] == Slash then
      assert path[|path|..] == [];
      []
    else
      var rest := Basename(path[..|path| - 1]);
      var name := rest + [path[|path| - 1]];
      assert exists k :: 0 <= k <= |path| && path[k..] == name && (k == 0 || path[k - 1] == Slash) by {
        var k :| 0 <= k <= |path| - 1 && path[..|path| - 1][k..] == rest && (k == 0 || path[..|path| - 1][k - 1] == Slash);
        assert path[k..] == path[..|path| - 1][k..] + [path[|path| - 1]];
      }
      name
  }

  /** The file a library is copied to: `new File(userDir, name)`, with `/` as the separator. */
  function TargetFile(userDir: JString, lib: JString): JString
  {
    InDir(userDir, Basename(lib))
  }

  /** What copying one resource to its target file did. */
  datatype Extraction =
    | Extracted
      /** The copy threw `error`, whose `getMessage()` is `message`. */
    | ExtractFailed(error: Exception, message: Option<JString>)

  /** How a load ended: the exception it threw, if any, and the files linked until then, in order. */
  datatype LoadResult = LoadResult(error: Option<Exception>, loaded: seq<JString>)

  /** A library whose copy failed because its file is in use is skipped. */
  predicate IsInUse(message: JString)
  {
    Contains(message, Lit("used by another"))
  }

  /**
   * The loop of `load()` over the libraries, from the first: copy, then link.
   * A copy that fails because the file is used by another process skips the
   * library; any other failure is rethrown (a `null` message makes the test
   * itself throw `NullPointerException`); a failed link throws
   * `UnsatisfiedLinkError`.
   */
  function LoadAll(libs: seq<JString>, userDir: JString, extract: JString -> Extraction, link: JString -> bool)
    : (r: LoadResult)
    ensures |r.loaded| <= |libs|
  {
    if |libs| == 0 then LoadResult(None, [])
    else
      var target := TargetFile(userDir, libs[0]);
      match extract(ToLower(libs[0]))
      case ExtractFailed(e, message) =>
        if message.None? then LoadResult(Some(NullPointerException), [])
        else if IsInUse(message.value) then LoadAll(libs[1..], userDir, extract, link)
        else LoadResult(Some(e), [])
      case Extracted =>
        if link(target) then
          var rest := LoadAll(libs[1..], userDir, extract, link);
          LoadResult(rest.error, [target] + rest.loaded)
        else LoadResult(Some(UnsatisfiedLinkError(target)), [])
  }

  /** The message of the `IllegalStateException` for a platform without libraries. */
  function UnsupportedMessage(d: OSDistribution, archTarget: JString): JString
  {
    Lit("Unsupported platform: ") + Lit(d.Name()) + Lit(":") + archTarget
  }

  /**
   * What `load()` does: fail on an unsupported platform, otherwise run the loop.
   * It ends without an exception only on a supported platform, and never loads
   * more files than the platform has libraries.
   */
  function LoadSpec(d: OSDistribution, archTarget: JString, isGnu: bool, userDir: JString,
                    extract: JString -> Extraction, link: JString -> bool): (r: LoadResult)
    ensures r.error.None? ==> d in {LINUX, MACOS, WINDOWS_NT}
    ensures |r.loaded| <= |Libraries(d, archTarget, isGnu).GetOr([])|
  {
    match Libraries(d, archTarget, isGnu)
    case None => LoadResult(Some(IllegalStateException(UnsupportedMessage(d, archTarget))), [])
    case Some(libs) => LoadAll(libs, userDir, extract, link)
  }

  /** `load()`: the null check, then the loop over the libraries. */
  method Load(d: OSDistribution, archTarget: JString, isGnu: bool, userDir: JString,
              extract: JString -> Extraction, link: JString -> bool)
    returns (error: Option<Exception>, loaded: seq<JString>)
    ensures LoadResult(error, loaded) == LoadSpec(d, archTarget, isGnu, userDir, extract, link)
  {
    var libraries := Libraries(d, archTarget, isGnu);
    if libraries.None? {
      return Some(IllegalStateException(UnsupportedMessage(d, archTarget))), [];
    }
    error, loaded := LoadLibraries(libraries.value, userDir, extract, link);
  }

  /** One step of the loop, seen from the specification. */
  lemma LoadAllStep(libs: seq<JString>, i: nat, userDir: JString, extract: JString -> Extraction, link: JString -> bool)
    requires i < |libs|
    ensures var here := LoadAll(libs[i..], userDir, extract, link);
      var next := LoadAll(libs[i + 1..], userDir, extract, link);
      var target := TargetFile(userDir, libs[i]);
      match extract(ToLower(libs[i]))
      case ExtractFailed(e, message) =>
        here == if message.None? then LoadResult(Some(NullPointerException), [])
                else if IsInUse(message.value) then next
                else LoadResult(Some(e), [])
      case Extracted =>
        here == if link(target) then LoadResult(next.error, [target] + next.loaded)
                else LoadResult(Some(UnsatisfiedLinkError(target)), [])
  {
    assert libs[i..][0] == libs[i];
    assert libs[i..][1..] == libs[i + 1..];
  }

  /** The `for` loop of `load()`: copy each library next to `userDir`, then link it. */
  method LoadLibraries(libs: seq<JString>, userDir: JString, extract: JString -> Extraction, link: JString -> bool)
    returns (error: Option<Exception>, loaded: seq<JString>)
    ensures LoadResult(error, loaded) == LoadAll(libs, userDir, extract, link)
  {
    loaded := [];
    var i := 0;
    while i < |libs|
      invariant 0 <= i <= |libs|
      invariant var rest := LoadAll(libs[i..], userDir, extract, link);
        LoadAll(libs, userDir, extract, link) == LoadResult(rest.error, loaded + rest.loaded)
    {
      var lib := libs[i];
      var target := TargetFile(userDir, lib);
      LoadAllStep(libs, i, userDir, extract, link);
      var outcome := extract(ToLower(lib));
      if outcome.ExtractFailed? {
        if outcome.message.None? {
          return Some(NullPointerException), loaded;
        }
        if IsInUse(outcome.message.value) {
          i := i + 1;
          continue;
        }
        return Some(outcome.error), loaded;
      }
      if !link(target) {
        return Some(UnsatisfiedLinkError(target)), loaded;
      }
      ghost var next := LoadAll(libs[i + 1..], userDir, extract, link).loaded;
      assert loaded + ([target] + next) == (loaded + [target]) + next;
      loaded := loaded + [target];
      i := i + 1;
    }
    assert libs[i..] == [];
    error := None;
  }

  /** `path` is the target file of one of `libs` whose copy succeeded and whose link succeeded. */
  predicate LinkedFrom(libs: seq<JString>, userDir: JString, extract: JString -> Extraction, link: JString -> bool,
                       path: JString)
  {
    exists i :: 0 <= i < |libs| && path == TargetFile(userDir, libs[i])
                && extract(ToLower(libs[i])) == Extracted && link(path)
  }

  /** What is linked: only target files of libraries whose copy succeeded and whose link succeeded. */
  lemma {:induction false} LoadAllLinksExtracted(libs: seq<JString>, userDir: JString,
                                                 extract: JString -> Extraction, link: JString -> bool)
    ensures forall path :: path in LoadAll(libs, userDir, extract, link).loaded ==>
      LinkedFrom(libs, userDir, extract, link, path)
  {
    if |libs| > 0 {
      var rest := LoadAll(libs[1..], userDir, extract, link);
      LoadAllLinksExtracted(libs[1..], userDir, extract, link);
      LinkedFromTail(libs, userDir, extract, link, rest.loaded);
      var r := LoadAll(libs, userDir, extract, link);
      var target := TargetFile(userDir, libs[0]);
      if extract(ToLower(libs[0])) == Extracted && link(target) {
        assert r.loaded == [target] + rest.loaded;
        assert LinkedFrom(libs, userDir, extract, link, target) by {
          assert target == TargetFile(userDir, libs[0]);
        }
      }
    }
  }

  /** Libraries of the tail are libraries of the list. */
  lemma LinkedFromTail(libs: seq<JString>, userDir: JString, extract: JString -> Extraction, link: JString -> bool,
                       paths: seq<JString>)
    requires |libs| > 0
    requires forall path :: path in paths ==> LinkedFrom(libs[1..], userDir, extract, link, path)
    ensures forall path :: path in paths ==> LinkedFrom(libs, userDir, extract, link, path)
  {
    forall path | path in paths
      ensures LinkedFrom(libs, userDir, extract, link, path)
    {
      var i :| 0 <= i < |libs[1..]| && path == TargetFile(userDir, libs[1..][i])
               && extract(ToLower(libs[1..][i])) == Extracted && link(path);
      assert libs[1..][i] == libs[i + 1];
    }
  }

  /** The target files of a list of libraries, in order. */
  function Targets(libs: seq<JString>, userDir: JString): (ts: seq<JString>)
    ensures |ts| == |libs|
    ensures forall i :: 0 <= i < |libs| ==> ts[i] == TargetFile(userDir, libs[i])
  {
    seq(|libs|, i requires 0 <= i < |libs| => TargetFile(userDir, libs[i]))
  }

  /** When every copy and every link succeeds, every library is linked, in order, and nothing is thrown. */
  lemma {:induction false} LoadAllSucceeds(libs: seq<JString>, userDir: JString,
                                           extract: JString -> Extraction, link: JString -> bool)
    requires forall i :: 0 <= i < |libs| ==>
      extract(ToLower(libs[i])) == Extracted && link(TargetFile(userDir, libs[i]))
    ensures LoadAll(libs, userDir, extract, link) == LoadResult(None, Targets(libs, userDir))
  {
    if |libs| > 0 {
      assert forall i :: 0 <= i < |libs[1..]| ==> libs[1..][i] == libs[i + 1];
      LoadAllSucceeds(libs[1..], userDir, extract, link);
      assert extract(ToLower(libs[0])) == Extracted && link(TargetFile(userDir, libs[0]));
      assert Targets(libs, userDir) == [TargetFile(userDir, libs[0])] + Targets(libs[1..], userDir);
    }
  }

  /** An unsupported platform fails before anything is copied or linked. */
  lemma UnsupportedLoadsNothing(d: OSDistribution, archTarget: JString, isGnu: bool, userDir: JString,
                                extract: JString -> Extraction, link: JString -> bool)
    requires d !in {LINUX, MACOS, WINDOWS_NT}
    ensures LoadSpec(d, archTarget, isGnu, userDir, extract, link)
      == LoadResult(Some(IllegalStateException(UnsupportedMessage(d, archTarget))), [])
  {
  }

  /** Only Linux asks which C library the host has; the answer picks the `gnu` or `musl` directory. */
  lemma LibcChoosesLinuxLibrary(archTarget: JString, isGnu: bool)
    ensures forall d :: d != LINUX ==> Libraries(d, archTarget, isGnu) == Libraries(d, archTarget, !isGnu)
    ensures Libraries(LINUX, archTarget, true) != Libraries(LINUX, archTarget, false)
  {
    var dir := NativesDir(archTarget) + Lit("linux/");
    var gnu := InDir(dir + Lit("gnu"), Lit("libwebview.so"));
    var musl := InDir(dir + Lit("musl"), Lit("libwebview.so"));
    assert gnu[|dir|] == 'g' as int && musl[|dir|] == 'm' as int;
  }

  /** The path of a library in its class-path directory, given as one literal below the target's directory. */
  lemma LibraryPath(archTarget: JString, subdir: string, name: string)
    ensures InDir(NativesDir(archTarget) + Lit(subdir), Lit(name)) == Lit("/natives/") + archTarget + Lit("/" + subdir + "/" + name)
  {
    LitAppend("/" + subdir, "/" + name);
    LitAppend("/", subdir);
    LitAppend("/", name);
    assert Lit("/") == [Slash];
  }

  /** The Linux `gnu` path below the target's directory, as written out in one piece. */
  lemma GnuPathText()
    ensures "/" + "linux/gnu" + "/" + "libwebview.so" == "/linux/gnu/libwebview.so"
  {
  }

  /** The Linux `musl` path below the target's directory, as written out in one piece. */
  lemma MuslPathText()
    ensures "/" + "linux/musl" + "/" + "libwebview.so" == "/linux/musl/libwebview.so"
  {
  }

  /** The macOS path below the target's directory, as written out in one piece. */
  lemma MacPathText()
    ensures "/" + "macos" + "/" + "libwebview.dylib" == "/macos/libwebview.dylib"
  {
  }

  /** The Windows NT loader path below the target's directory, as written out in one piece. */
  lemma WindowsLoaderPathText()
    ensures "/" + "windows_nt" + "/" + "webview2loader.dll" == "/windows_nt/webview2loader.dll"
  {
  }

  /** The Windows NT library path below the target's directory, as written out in one piece. */
  lemma WindowsLibraryPathText()
    ensures "/" + "windows_nt" + "/" + "webview.dll" == "/windows_nt/webview.dll"
  {
  }

  /** On Linux the `gnu` build is loaded on a GNU libc host and the `musl` build otherwise. */
  lemma LinuxLibraryPaths(archTarget: JString)
    ensures Libraries(LINUX, archTarget, true) == Some([Lit("/natives/") + archTarget + Lit("/linux/gnu/libwebview.so")])
    ensures Libraries(LINUX, archTarget, false) == Some([Lit("/natives/") + archTarget + Lit("/linux/musl/libwebview.so")])
  {
    var dir := NativesDir(archTarget);
    LitAppend("linux/", "gnu");
    LitAppend("linux/", "musl");
    assert dir + Lit("linux/") + Lit("gnu") == dir + Lit("linux/gnu");
    assert dir + Lit("linux/") + Lit("musl") == dir + Lit("linux/musl");
    GnuPathText();
    MuslPathText();
    LibraryPath(archTarget, "linux/gnu", "libwebview.so");
    LibraryPath(archTarget, "linux/musl", "libwebview.so");
  }

  /** On macOS the library is the dylib in the `macos` directory. */
  lemma MacLibraryPath(archTarget: JString, isGnu: bool)
    ensures Libraries(MACOS, archTarget, isGnu) == Some([Lit("/natives/") + archTarget + Lit("/macos/libwebview.dylib")])
  {
    MacPathText();
    LibraryPath(archTarget, "macos", "libwebview.dylib");
  }

  /** On Windows NT the two DLLs come from the `windows_nt` directory, the loader first. */
  lemma WindowsLibraryPaths(archTarget: JString, isGnu: bool)
    ensures Libraries(WINDOWS_NT, archTarget, isGnu) == Some([
      Lit("/natives/") + archTarget + Lit("/windows_nt/webview2loader.dll"),
      Lit("/natives/") + archTarget + Lit("/windows_nt/webview.dll")])
  {
    WindowsLoaderPathText();
    WindowsLibraryPathText();
    LibraryPath(archTarget, "windows_nt", "webview2loader.dll");
    LibraryPath(archTarget, "windows_nt", "webview.dll");
  }

  /** The target file lies directly in `user.dir` and has the library's file name. */
  lemma TargetFileName(userDir: JString, lib: JString)
    ensures Prefix(userDir + [Slash], TargetFile(userDir, lib))
    ensures Basename(TargetFile(userDir, lib)) == Basename(lib)
  {
    BasenameInDir(userDir, Basename(lib));
  }

  /** On Windows the WebView2 loader is linked before the WebView library that needs it. */
  lemma WindowsLoaderFirst(archTarget: JString, isGnu: bool)
    ensures var libs := Libraries(WINDOWS_NT, archTarget, isGnu).value;
      |libs| == 2 && Basename(libs[0]) == Lit("webview2loader.dll") && Basename(libs[1]) == Lit("webview.dll")
  {
    var dir := NativesDir(archTarget) + Lit("windows_nt");
    assert Libraries(WINDOWS_NT, archTarget, isGnu).value
        == [InDir(dir, Lit("webview2loader.dll")), InDir(dir, Lit("webview.dll"))];
    BasenameInDir(dir, Lit("webview2loader.dll"));
    BasenameInDir(dir, Lit("webview.dll"));
  }

  /** On Linux the one library is the shared object `libwebview.so`. */
  lemma LinuxLibraryName(archTarget: JString, isGnu: bool)
    ensures var libs := Libraries(LINUX, archTarget, isGnu).value;
      |libs| == 1 && Basename(libs[0]) == Lit("libwebview.so")
  {
    var dir := NativesDir(archTarget) + Lit("linux/") + Lit(if isGnu then "gnu" else "musl");
    assert Libraries(LINUX, archTarget, isGnu).value == [InDir(dir, Lit("libwebview.so"))];
    BasenameInDir(dir, Lit("libwebview.so"));
  }

  /** On macOS the one library is the dynamic library `libwebview.dylib`. */
  lemma MacLibraryName(archTarget: JString, isGnu: bool)
    ensures var libs := Libraries(MACOS, archTarget, isGnu).value;
      |libs| == 1 && Basename(libs[0]) == Lit("libwebview.dylib")
  {
    BasenameInDir(NativesDir(archTarget) + Lit("macos"), Lit("libwebview.dylib"));
  }

  /** The name after the last slash is the base name. */
  lemma {:induction false} BasenameInDir(dir: JString, name: JString)
    requires Slash !in name
    ensures Basename(InDir(dir, name)) == name
  {
    var path := InDir(dir, name);
    if |name| > 0 {
      assert path[..|path| - 1] == InDir(dir, name[..|name| - 1]);
      assert path[|path| - 1] == name[|name| - 1];
      BasenameInDir(dir, name[..|name| - 1]);
      assert name[..|name| - 1] + [name[|name| - 1]] == name;
    } else {
      assert path[|dir|] == Slash;
    }
  }
}
