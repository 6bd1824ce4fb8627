# webview (HiveVM) — a verified model of the Java binding's core

The Java binding of the native `webview` library does three things before and
around its calls into the native code:

- **Platform detection.** From the system properties it works out:
  - the CPU family (`ArchFamily.get`) and its LLVM target name (`getArchTarget`);
  - the JVM word size (`PlatformUtil.getWordSize`);
  - the OS family (`OSFamily.get`) and the distribution within it (`OSDistribution.get`);
  - whether a Linux host has the GNU C library (`LinuxLibC.isGNU`).

  `Platform` holds the results in static fields and offers `formatLibrary`.
- **Native loading.** `NativeLoader` chooses the bundled libraries for the detected platform. It copies each one into the working directory and loads it.
- **The `WebView` facade.** Each method makes one or two native calls on the handle, with strings allocated in a confined arena. A bound JavaScript function answers through a callback that escapes its response with `WebViewUtil.forceSafeChars` or `WebViewUtil.jsonEscape`.

The model has one module per source class:

| module | file | models |
|---|---|---|
| `JavaText` | `java_text.dfy` | Java strings as UTF-16 code units, `contains`, ASCII case mapping, `Integer.parseInt`, the exceptions |
| `RegexLite` | `regex_lite.dfy` | `Pattern.compile(r).matcher(s).find()` for the regexes the enums use |
| `EnumScan` | `enum_scan.dfy` | the `for (e : values()) if (test) return e;` scan as a first-match function |
| `WebViewUtil` | `webview_util.dfy` | `jsonEscape` and `forceSafeChars`, loops proved equal to per-character mappings; a JSON string unescaper as their partner |
| `ArchFamilies` | `arch_family.dfy` | `ArchFamily`, `get`, `getArchTarget` |
| `OSFamilies` | `os_family.dfy` | `OSFamily`, `get` |
| `OSDistributions` | `os_distribution.dfy` | `OSDistribution`, `get`, and a family-by-family reference scan |
| `PlatformUtils` | `platform_util.dfy` | `getWordSize` |
| `LinuxLibCs` | `linux_libc.dfy` | `isGNU` and its two probes; how `Runtime.exec(String)` tokenizes the probe command |
| `Platforms` | `platform.dfy` | the static fields of `Platform`, `formatLibrary` |
| `NativeLoaders` | `native_loader.dfy` | `getLibraries` and the extraction/link loop of `load` |
| `WebViews` | `webview.dfy` | the `WebView` class: handle, arena and the calls made into the native library, as a ghost trace |

**Inputs.** System properties, the native byte order, the outcome of each probe, resource extraction, `System.load`, the handle `webview_create` returns and a bound handler's answer are all parameters. An unset property is `None`.

**Errors.** A Java exception is an `Err`/`Threw` value, not a precondition:
- an unknown CPU architecture;
- an unparsable word size;
- an unsupported platform;
- a failed extraction or link;
- a use of a `WebView` after `close()`. A call that allocates a string in the `null` arena throws `NullPointerException`. A call that hands only the `null` handle to the native library fails inside the generated downcall wrapper, which rethrows every failure as `AssertionError("should not reach here")` (`WebViews.DowncallFailure`).

Where the documentation and the code disagree, the model follows the code:
- **`jsonEscape` is not valid JSON for every input.** The code escapes NUL, `\n`, `\t`, `\r`, `\`, `"`, `\b`, `\f` and every character above 127. It leaves the other control characters 0x01–0x1F unescaped, so the result is not always a valid JSON string body. `JsonEscapedNotStrictJson` exhibits U+0001. The round trip `JsonEscapedRoundTrip` therefore holds for a lenient unescaper for every input, and for a strict one only without such characters.
- **`formatLibrary` on Linux.** `Platform.formatLibrary`'s comment gives `"libwebview.so"` as the Linux example. The code lowercases `name + ".so"` and adds no `lib` prefix, so `formatLibrary("WebView")` is `"webview.so"` (`Platforms.FormatLibraryLinuxExample`).
- **`setHTML(null)`.** `setHTML` is annotated `@Nullable`, but `arena.allocateFrom(null)` throws `NullPointerException`, and so does the model.
- **A bound function sees only short requests.** The callback's request pointer is described as a sequence of 10 Java chars, so its segment spans 20 bytes. `req.getString(0)` needs the UTF-8 text and its NUL terminator inside those bytes. A request of 20 bytes or more makes it throw, and the JavaScript caller gets that exception's stack text with `WEBVIEW_ERROR_UNSPECIFIED`; the handler is never called (`WebViews.LongRequestFails`, `WebViews.EchoExamples`).
- **The example program calls `webview_terminate` on a destroyed webview.** `run()` ends with `webview_destroy`. The example program's try-with-resources then calls `close()`, which calls `webview_terminate` on that destroyed handle. `WebViews.ExampleSession` shows both calls.

## Model

| member | source | states |
|---|---|---|
| JavaText.ToLower | core/src/main/java/org/hivevm/webview/util/OSFamily.java:48 | lowering keeps the length, leaves no upper-case letter and changes each character only within its case pair (same upper-case form) |
| JavaText.ToUpper | core/src/main/java/org/hivevm/webview/util/Platform.java:79 | upper-casing keeps the length, leaves no lower-case letter and changes each character only within its case pair (same lower-case form) |
| JavaText.ToLowerIdempotent | core/src/main/java/org/hivevm/webview/util/OSFamily.java:48 | lowering an already lowered name changes nothing |
| JavaText.ParseInt | core/src/main/java/org/hivevm/webview/util/PlatformUtil.java:73 | `Integer.parseInt` succeeds only on a non-empty text and only with a 32-bit value |
| JavaText.ParseIntDecimal | core/src/main/java/org/hivevm/webview/util/PlatformUtil.java:73 | the decimal text of every 32-bit value, with a minus sign when negative, parses back to that value |
| JavaText.ParseIntRejectsLeadingNonDigit | core/src/main/java/org/hivevm/webview/util/PlatformUtil.java:73 | a text starting with anything but a digit or a sign is a `NumberFormatException` |
| RegexLite.FindLiterals | core/src/main/java/org/hivevm/webview/util/OSFamily.java:52 | `find` of an alternation of literals succeeds exactly when the name contains one of them |
| RegexLite.LiteralMatchesAt | core/src/main/java/org/hivevm/webview/util/OSDistribution.java:94 | a literal regex matches at position i exactly when the text occurs there |
| RegexLite.AbsentCharNoMatch | core/src/main/java/org/hivevm/webview/util/OSFamily.java:52 | an alternative needing a character the name lacks matches nowhere |
| RegexLite.FindInContext | core/src/main/java/org/hivevm/webview/util/OSFamily.java:52 | `find` searches the whole text: a regex found in a text is found in any text containing it |
| EnumScan.FirstWhereNone | core/src/main/java/org/hivevm/webview/util/OSFamily.java:51-58 | the scan finds nothing exactly when no constant passes; what it finds passes and is a constant |
| EnumScan.FirstWhereIff | core/src/main/java/org/hivevm/webview/util/ArchFamily.java:58-62 | over distinct constants, the scan returns the k-th exactly when it passes and no earlier one does |
| WebViewUtil.Hex4 | core/src/main/java/org/hivevm/webview/WebViewUtil.java:89 | `%04x` gives four lower-case hex digits |
| WebViewUtil.Hex4RoundTrip | core/src/main/java/org/hivevm/webview/WebViewUtil.java:89 | reading the four digits back gives the code unit |
| WebViewUtil.UnicodeEscape | core/src/main/java/org/hivevm/webview/WebViewUtil.java:89 | `\u` followed by the four hex digits, six units long |
| WebViewUtil.JsonEscape | core/src/main/java/org/hivevm/webview/WebViewUtil.java:40-100 | the loop's output is the per-character escape of the whole input |
| WebViewUtil.ForceSafeChars | core/src/main/java/org/hivevm/webview/WebViewUtil.java:102-127 | the loop's output is the per-character safe form of the whole input |
| WebViewUtil.JsonEscapeCharShape | core/src/main/java/org/hivevm/webview/WebViewUtil.java:46-95 | each code unit becomes 1, 2 or 6 ASCII units with no NUL; one unit exactly when it is plain (ASCII, not escaped), and then it is itself |
| WebViewUtil.SafeCharShape | core/src/main/java/org/hivevm/webview/WebViewUtil.java:108-122 | each code unit becomes 1 or 6 ASCII units with no NUL; one exactly when it is non-NUL ASCII, and then it is itself |
| WebViewUtil.JsonEscapedAppend | core/src/main/java/org/hivevm/webview/WebViewUtil.java:45-97 | escaping distributes over concatenation |
| WebViewUtil.SafeCharsAppend | core/src/main/java/org/hivevm/webview/WebViewUtil.java:107-124 | the safe form distributes over concatenation |
| WebViewUtil.JsonEscapedNulFreeAscii | core/src/main/java/org/hivevm/webview/WebViewUtil.java:40-100 | the escaped text is ASCII without NUL |
| WebViewUtil.SafeCharsNulFreeAscii | core/src/main/java/org/hivevm/webview/WebViewUtil.java:102-127 | the safe text is ASCII without NUL |
| WebViewUtil.JsonEscapedIdentity | core/src/main/java/org/hivevm/webview/WebViewUtil.java:40-100 | escaping never shortens, and leaves a text unchanged exactly when every unit is plain |
| WebViewUtil.SafeCharsIdentity | core/src/main/java/org/hivevm/webview/WebViewUtil.java:102-127 | never shortens, and leaves a text unchanged exactly when it is NUL-free ASCII (idempotent on its own output) |
| WebViewUtil.UnescapeJsonEscapeChar | core/src/main/java/org/hivevm/webview/WebViewUtil.java:46-95 | the JSON unescaper reads each escape back to its code unit |
| WebViewUtil.JsonEscapedRoundTrip | core/src/main/java/org/hivevm/webview/WebViewUtil.java:40-100 | unescaping the escaped text gives the input back (strict JSON: when no unescaped control unit is left) |
| WebViewUtil.JsonEscapedNotStrictJson | core/src/main/java/org/hivevm/webview/WebViewUtil.java:87-92 | U+0001 is copied raw, so a strict JSON reader rejects the result |
| WebViewUtil.SafeCharsNotInjective | core/src/main/java/org/hivevm/webview/WebViewUtil.java:114-119 | "é" and the six characters `\u00e9` have the same safe form: the mapping cannot be undone |
| WebViewUtil.JsonEscapeExample | core/src/main/java/org/hivevm/webview/WebViewUtil.java:40-100 | `Hello "world"` + newline + é escapes to `Hello \"world\"\n\u00e9` |
| WebViewUtil.ForceSafeCharsExample | core/src/main/java/org/hivevm/webview/WebViewUtil.java:102-127 | `A"B` NUL `C€` becomes `A"B\u0000C\u20ac`: quotes pass through |
| ArchFamilies.GetArchFamily | core/src/main/java/org/hivevm/webview/util/ArchFamily.java:54-66 | the loop returns the first family whose regex is found in the lowered `os.arch` ("<blank>" when unset), else `UnsupportedOperationException` |
| ArchFamilies.ArchFamilyOf | core/src/main/java/org/hivevm/webview/util/ArchFamily.java:54-66 | a returned family's regex is found in the lowered `os.arch`; the exception is `UnsupportedOperationException("Unknown cpu arch: " + lowered os.arch)` |
| ArchFamilies.ArchFamilyOfFirstMatch | core/src/main/java/org/hivevm/webview/util/ArchFamily.java:54-66 | the result is the k-th family exactly when its regex is found and no earlier family's is |
| ArchFamilies.ArchFamilyOfUnknown | core/src/main/java/org/hivevm/webview/util/ArchFamily.java:64-65 | the lookup fails exactly when no family's regex is found |
| ArchFamilies.Amd64IsX86 | core/src/main/java/org/hivevm/webview/util/ArchFamily.java:27 | "AMD64" is x86 |
| ArchFamilies.ArchFamily.ArchTarget | core/src/main/java/org/hivevm/webview/util/ArchFamily.java:85-122 | `getArchTarget` agrees with every entry of an independent target-name table; 64 selects the 64-bit column, any other word size the 32-bit one |
| ArchFamilies.TargetTableCoversFamilies | core/src/main/java/org/hivevm/webview/util/ArchFamily.java:87-119 | the independent table has a row for every family, as the switch has a case for each (that exhaustive switch is why the `RuntimeException` after it is unreachable) |
| ArchFamilies.ArchTargetIgnores | core/src/main/java/org/hivevm/webview/util/ArchFamily.java:103-115 | x86, RISC-V and s390 ignore the byte order; 64-bit SPARC is always sparcv9 |
| ArchFamilies.UsualArchTargets | core/src/main/java/org/hivevm/webview/util/ArchFamily.java:76-78 | with each family's usual byte order: x86_64, aarch64, ppc64, mips64, sparc, systemz, riscv32 |
| ArchFamilies.ArchFamily.UsualArchTarget | core/src/main/java/org/hivevm/webview/util/ArchFamily.java:27-33 | the one-argument `getArchTarget` uses the `isUsuallyBigEndian` flag: big-endian for PPC, SPARC, MIPS and S390, little-endian for x86, ARM and RISC-V |
| OSFamilies.GetOSFamily | core/src/main/java/org/hivevm/webview/util/OSFamily.java:47-59 | the loop returns the first family whose regex is found in the lowered `os.name` |
| OSFamilies.OSFamilyOf | core/src/main/java/org/hivevm/webview/util/OSFamily.java:47-59 | the returned family's regex is found in the lowered `os.name`, the `GENERIC` fallback included |
| OSFamilies.OSFamilyOfFirstMatch | core/src/main/java/org/hivevm/webview/util/OSFamily.java:47-59 | the scan always finds a family (the empty regex of `GENERIC`); the k-th exactly when it is the first match |
| OSFamilies.OSFamilyGenericIffNoMatch | core/src/main/java/org/hivevm/webview/util/OSFamily.java:51-58 | `GENERIC` exactly when none of UNIX, WINDOWS, DOS, VMS matches |
| OSFamilies.OSFamilyIgnoresCase | core/src/main/java/org/hivevm/webview/util/OSFamily.java:48 | names equal up to case give the same family |
| OSFamilies.DarwinIsUnix | core/src/main/java/org/hivevm/webview/util/OSFamily.java:28 | "Darwin" is UNIX |
| OSFamilies.BlankIsNotUnix | core/src/main/java/org/hivevm/webview/util/OSFamily.java:28 | the default "<blank>" matches no UNIX alternative, `.ix` included |
| OSFamilies.MissingNameIsGeneric | core/src/main/java/org/hivevm/webview/util/OSFamily.java:48-58 | an unset `os.name` gives `GENERIC` |
| OSDistributions.GetDistribution | core/src/main/java/org/hivevm/webview/util/OSDistribution.java:78-101 | the DOS separator test, then the loop skipping other families, then the `GENERIC` fallback |
| OSDistributions.OSDistribution.Family | core/src/main/java/org/hivevm/webview/util/OSDistribution.java:30-48 | every distribution but `GENERIC` has a family (`GENERIC`'s is `null`), and none has the `GENERIC` family |
| OSDistributions.FirstOfFamily | core/src/main/java/org/hivevm/webview/util/OSDistribution.java:30-48 | a reference scan, family by family in declaration order; what it returns belongs to the family and passes the test |
| OSDistributions.ScanIsFirstOfFamily | core/src/main/java/org/hivevm/webview/util/OSDistribution.java:89-97 | scanning all constants while skipping other families equals the family-by-family reference, for any test |
| OSDistributions.DistributionByFamily | core/src/main/java/org/hivevm/webview/util/OSDistribution.java:85-100 | outside the DOS separator case, `get` is the reference scan of the regexes, or `GENERIC` |
| OSDistributions.DistributionOfFirstMatch | core/src/main/java/org/hivevm/webview/util/OSDistribution.java:89-97 | the result is the k-th constant exactly when it is in the family, its regex is found and no earlier one passes both |
| OSDistributions.DistributionOf | core/src/main/java/org/hivevm/webview/util/OSDistribution.java:78-101 | the result is `GENERIC` or belongs to the requested family; outside the DOS separator case its regex is found in the lowered `os.name` |
| OSDistributions.DistributionGenericIffNoMatch | core/src/main/java/org/hivevm/webview/util/OSDistribution.java:89-100 | outside the DOS case, `GENERIC` exactly when no distribution of the family matches |
| OSDistributions.GenericFamilyIsGeneric | core/src/main/java/org/hivevm/webview/util/OSDistribution.java:48 | the `GENERIC` family always gives the `GENERIC` distribution |
| OSDistributions.DosDistribution | core/src/main/java/org/hivevm/webview/util/OSDistribution.java:79-83 | in the DOS family a `;` separator gives MS-DOS; otherwise MS-DOS only if the name contains its placeholder regex, else `GENERIC` |
| OSDistributions.Windows9xBeforeNt | core/src/main/java/org/hivevm/webview/util/OSDistribution.java:33-34 | Windows 9x exactly when its regex is found; NT exactly when it is not and "win" is |
| OSDistributions.LinuxIsTriedLast | core/src/main/java/org/hivevm/webview/util/OSDistribution.java:37-40 | Linux exactly when "nux" is found and the macOS, Solaris and BSD regexes are not |
| OSDistributions.Windows98Example | core/src/main/java/org/hivevm/webview/util/OSDistribution.java:33 | "Windows 98" is Windows 9x |
| PlatformUtils.ParseWordSize | core/src/main/java/org/hivevm/webview/util/PlatformUtil.java:73 | `parseInt` or a `NumberFormatException` carrying the text |
| PlatformUtils.WordSize | core/src/main/java/org/hivevm/webview/util/PlatformUtil.java:65-89 | a 32-bit value, or `NumberFormatException`, or `NullPointerException` exactly when no property is usable and `java.vm.name` is unset; from the VM name only 64, 32 or -1 |
| PlatformUtils.WordSizePriority | core/src/main/java/org/hivevm/webview/util/PlatformUtil.java:71-79 | a usable `sun.arch.data.model` decides alone; a set `com.ibm.vm.bitmode` makes the VM name irrelevant |
| PlatformUtils.WordSizeReadsDecimal | core/src/main/java/org/hivevm/webview/util/PlatformUtil.java:71-79 | the decimal text of any 32-bit value, in either property, is read as that value |
| PlatformUtils.UnknownModelFallsThrough | core/src/main/java/org/hivevm/webview/util/PlatformUtil.java:72-78 | "unknown" in the Sun property is skipped; in the IBM property it is a `NumberFormatException` |
| PlatformUtils.VmNameSixtyFourFirst | core/src/main/java/org/hivevm/webview/util/PlatformUtil.java:82-86 | "64-bit" wins when the VM name mentions both |
| PlatformUtils.VmNameThirtyTwo | core/src/main/java/org/hivevm/webview/util/PlatformUtil.java:84-85 | a VM name with "32-bit" and without "64-bit" gives 32 |
| PlatformUtils.VmNameNeither | core/src/main/java/org/hivevm/webview/util/PlatformUtil.java:81-88 | a VM name with neither "64-bit" nor "32-bit" gives -1 |
| LinuxLibCs.IsGnu | core/src/main/java/org/hivevm/webview/util/LinuxLibC.java:37-56 | `IllegalStateException` exactly off Linux; false only when the first probe that worked said no |
| LinuxLibCs.ForcedGnu | core/src/main/java/org/hivevm/webview/util/LinuxLibC.java:41-42 | `forcegnu` equal to "true" in any case forces true whatever the probes say |
| LinuxLibCs.ProbeOrder | core/src/main/java/org/hivevm/webview/util/LinuxLibC.java:44-55 | the file probe decides when it reads, the command probe when only it reads, and true when both fail |
| LinuxLibCs.OnlyTrueForces | core/src/main/java/org/hivevm/webview/util/LinuxLibC.java:41 | any other `forcegnu` value is as if unset |
| LinuxLibCs.Tokens | core/src/main/java/org/hivevm/webview/util/LinuxLibC.java:66-67 | `Runtime.exec(String)`'s tokens are non-empty and contain no white space |
| LinuxLibCs.TokensOfJoinedWords | core/src/main/java/org/hivevm/webview/util/LinuxLibC.java:66-67 | tokenizing words joined by spaces gives the words back |
| LinuxLibCs.ExecSplitsQuotedScript | core/src/main/java/org/hivevm/webview/util/LinuxLibC.java:66-67 | as written: `sh -c '<w1 w2 ...>'` gives `sh` the script `'w1`, not the quoted text |
| LinuxLibCs.ProbeCommandAsExecuted | core/src/main/java/org/hivevm/webview/util/LinuxLibC.java:66-67 | the probe's script is of that shape, so `sh` is given `'getconf` |
| LinuxLibCs.ShArgv | core/src/main/java/org/hivevm/webview/util/LinuxLibC.java:66-67 | corrected: the three-element argument vector whose script is exactly the text between the quotes |
| LinuxLibCs.ArgvVersusTokens | core/src/main/java/org/hivevm/webview/util/LinuxLibC.java:66-67 | the corrected vector carries the whole script, the tokenized command line does not |
| Platforms.DetectPlatform | core/src/main/java/org/hivevm/webview/util/Platform.java:35-56 | fields in declaration order; fails exactly when the word size or the CPU family does, with the word size's exception when it fails and otherwise the CPU family's; otherwise the byte order is the native one, the word size is `getWordSize()`'s, the CPU family is `ArchFamily.get()`'s, the target is that family's for that word size and byte order, the OS family is `OSFamily.get()`'s and the distribution is `OSDistribution.get(osFamily)`'s, in that family or `GENERIC` |
| Platforms.FormatLibrary | core/src/main/java/org/hivevm/webview/util/Platform.java:75-107 | name + extension up to case; unchanged case on Windows and `GENERIC`, upper case on MS-DOS and OpenVMS, lower case on the Unix distributions |
| Platforms.LibraryExtensionShape | core/src/main/java/org/hivevm/webview/util/Platform.java:76-106 | every distribution but `GENERIC` gets an extension: a dot and at least two letters; `GENERIC` gets none |
| Platforms.FormatLibraryLinuxExample | core/src/main/java/org/hivevm/webview/util/Platform.java:92-93 | "WebView" becomes "webview.so" on Linux |
| Platforms.FormatLibraryWindowsExample | core/src/main/java/org/hivevm/webview/util/Platform.java:83-84 | "WebView" becomes "WebView.dll" on Windows NT |
| Platforms.FormatLibraryDosExample | core/src/main/java/org/hivevm/webview/util/Platform.java:78-79 | "WebView" becomes "WEBVIEW.EXE" on MS-DOS |
| NativeLoaders.Libraries | core/src/main/java/org/hivevm/webview/NativeLoader.java:17-27 | a list exactly for Linux, macOS and Windows NT, every path under `/natives/<archTarget>/` |
| NativeLoaders.LibcChoosesLinuxLibrary | core/src/main/java/org/hivevm/webview/NativeLoader.java:19-20 | the C library matters only on Linux, where it changes the path |
| NativeLoaders.LinuxLibraryPaths | core/src/main/java/org/hivevm/webview/NativeLoader.java:19-20 | on Linux: `/natives/<archTarget>/linux/gnu/libwebview.so` with GNU libc, `/natives/<archTarget>/linux/musl/libwebview.so` without |
| NativeLoaders.MacLibraryPath | core/src/main/java/org/hivevm/webview/NativeLoader.java:21 | on macOS: `/natives/<archTarget>/macos/libwebview.dylib` |
| NativeLoaders.WindowsLibraryPaths | core/src/main/java/org/hivevm/webview/NativeLoader.java:22-24 | on Windows NT: `/natives/<archTarget>/windows_nt/webview2loader.dll`, then `/natives/<archTarget>/windows_nt/webview.dll` |
| NativeLoaders.WindowsLoaderFirst | core/src/main/java/org/hivevm/webview/NativeLoader.java:22-24 | Windows NT loads `webview2loader.dll` before `webview.dll` |
| NativeLoaders.LinuxLibraryName | core/src/main/java/org/hivevm/webview/NativeLoader.java:19-20 | Linux loads one file, `libwebview.so` |
| NativeLoaders.MacLibraryName | core/src/main/java/org/hivevm/webview/NativeLoader.java:21 | macOS loads one file, `libwebview.dylib` |
| NativeLoaders.Basename | core/src/main/java/org/hivevm/webview/NativeLoader.java:40 | `File.getName()`: a slash-free suffix starting after a slash or at the start |
| NativeLoaders.BasenameInDir | core/src/main/java/org/hivevm/webview/NativeLoader.java:40 | the name of `dir/name` is `name` |
| NativeLoaders.TargetFileName | core/src/main/java/org/hivevm/webview/NativeLoader.java:40 | the target file lies directly in `user.dir` and has the library's file name |
| NativeLoaders.LoadAll | core/src/main/java/org/hivevm/webview/NativeLoader.java:39-59 | never more loaded files than libraries |
| NativeLoaders.LoadAllStep | core/src/main/java/org/hivevm/webview/NativeLoader.java:40-58 | one library: a missing message is `NullPointerException`, "used by another" skips it, other failures are rethrown, a failed link is `UnsatisfiedLinkError`, else it is loaded and the loop goes on |
| NativeLoaders.LoadLibraries | core/src/main/java/org/hivevm/webview/NativeLoader.java:39-59 | the loop's error and loaded files are those of the specification |
| NativeLoaders.Load | core/src/main/java/org/hivevm/webview/NativeLoader.java:29-60 | `IllegalStateException("Unsupported platform: <distribution>:<target>")` when there is no list, else the loop |
| NativeLoaders.LoadSpec | core/src/main/java/org/hivevm/webview/NativeLoader.java:29-60 | `load()` ends without an exception only on Linux, macOS or Windows NT, and links no more files than there are libraries |
| NativeLoaders.LoadAllLinksExtracted | core/src/main/java/org/hivevm/webview/NativeLoader.java:46-58 | every loaded file is the target of a library that was extracted and linked |
| NativeLoaders.Targets | core/src/main/java/org/hivevm/webview/NativeLoader.java:40 | one target per library, `user.dir` joined with the library's file name |
| NativeLoaders.LoadAllSucceeds | core/src/main/java/org/hivevm/webview/NativeLoader.java:39-59 | when every extraction and link succeeds, no error and every target loaded in order |
| NativeLoaders.UnsupportedLoadsNothing | core/src/main/java/org/hivevm/webview/NativeLoader.java:32-35 | off Linux, macOS and Windows NT the error is the unsupported-platform exception and nothing is loaded |
| WebViews.Arena.constructor | core/src/main/java/org/hivevm/webview/WebView.java:100 | a new confined arena is open |
| WebViews.Arena.Close | core/src/main/java/org/hivevm/webview/WebView.java:272 | closing leaves it closed; a second close throws `IllegalStateException` |
| WebViews.Quoted | core/src/main/java/org/hivevm/webview/WebView.java:213 | the body between two quote characters |
| WebViews.Utf8Length | core/src/main/java/org/hivevm/webview/WebView.java:203 | the UTF-8 length of the request is between one and three bytes per code unit |
| WebViews.AsciiRequestFits | core/src/main/java/org/hivevm/webview/WebView.java:226-227 | an ASCII request fits its 20-byte segment exactly when it has at most 19 characters |
| WebViews.LongRequestFails | core/src/main/java/org/hivevm/webview/WebView.java:203 | a request of 20 UTF-8 bytes or more is answered with UNSPECIFIED whatever the handler, which is never consulted |
| WebViews.Respond | core/src/main/java/org/hivevm/webview/WebView.java:197-216 | OK exactly when the request fits its segment and the handler returns; an OK response is NUL-free ASCII, "null" for a null answer and otherwise `forceSafeChars` of the answer; an error response is a quoted JSON string that unescapes to the stack trace of the handler's throwable, or of the failed read for a request that does not fit |
| WebViews.EchoRoundTrip | core/src/test/java/org/hivevm/webview/Example.java:8 | an echo handler returns a safe request that fits its segment unchanged with status OK |
| WebViews.EchoExamples | core/src/test/java/org/hivevm/webview/Example.java:7-8 | `echo(1,2,3)` answers `[1,2,3]`; the 20-character request of `echo(1,2,3,4,5,6,7,8,10)` is an error |
| WebViews.TemplateCarriesScript | core/src/main/java/org/hivevm/webview/WebView.java:151-160 | a template filled with a script carries it verbatim and, quoted, as a JSON string that unescapes to it |
| WebViews.InitScriptCarriesScript | core/src/main/java/org/hivevm/webview/WebView.java:150-163 | the init script contains the script itself and its quoted escaped form, which unescapes to the script |
| WebViews.WebView.constructor | core/src/main/java/org/hivevm/webview/WebView.java:85-87 | creates with `(1, NULL)`, navigates to about:blank, sets 800×600 |
| WebViews.WebView.Sized | core/src/main/java/org/hivevm/webview/WebView.java:92-105 | creates with `(1, NULL)` whatever `debug` is, navigates to about:blank, sets the size with no hint |
| WebViews.WebView.SetHTML | core/src/main/java/org/hivevm/webview/WebView.java:107-109 | one `set_html`; `NullPointerException` for a null html or after close |
| WebViews.WebView.LoadURL | core/src/main/java/org/hivevm/webview/WebView.java:111-117 | one `navigate`, to about:blank when the URL is null |
| WebViews.WebView.SetTitle | core/src/main/java/org/hivevm/webview/WebView.java:119-121 | one `set_title`, with a NULL pointer for a null title; after close, `NullPointerException` for a title and the downcall failure for a null one |
| WebViews.WebView.SetSizeWithHint | core/src/main/java/org/hivevm/webview/WebView.java:123-137 | one `set_size` with the given hint; after close, the downcall failure |
| WebViews.WebView.SetMinSize | core/src/main/java/org/hivevm/webview/WebView.java:123-125 | `set_size` with the MIN hint |
| WebViews.WebView.SetMaxSize | core/src/main/java/org/hivevm/webview/WebView.java:127-129 | `set_size` with the MAX hint |
| WebViews.WebView.SetSize | core/src/main/java/org/hivevm/webview/WebView.java:131-133 | `set_size` with the NONE hint |
| WebViews.WebView.SetFixedSize | core/src/main/java/org/hivevm/webview/WebView.java:135-137 | `set_size` with the FIXED hint |
| WebViews.WebView.SetInitScriptNested | core/src/main/java/org/hivevm/webview/WebView.java:150-163 | one `init` with the filled template |
| WebViews.WebView.SetInitScript | core/src/main/java/org/hivevm/webview/WebView.java:142-144 | the same, with nested access false |
| WebViews.WebView.Dispatch | core/src/main/java/org/hivevm/webview/WebView.java:247-251 | changes nothing: the task is never run |
| WebViews.WebView.Eval | core/src/main/java/org/hivevm/webview/WebView.java:168-180 | changes nothing, since it only hands its task to `dispatch` |
| WebViews.WebView.Bind | core/src/main/java/org/hivevm/webview/WebView.java:191-236 | never throws; one `bind` while open, nothing after close |
| WebViews.WebView.Callback | core/src/main/java/org/hivevm/webview/WebView.java:197-217 | exactly one `return` with the status and text of `Respond`; after close, `NullPointerException` from allocating the response |
| WebViews.WebView.Unbind | core/src/main/java/org/hivevm/webview/WebView.java:241-243 | one `unbind` |
| WebViews.WebView.RunLoop | core/src/main/java/org/hivevm/webview/WebView.java:256-259 | `run`, then `destroy`; after close, the downcall failure |
| WebViews.WebView.Close | core/src/main/java/org/hivevm/webview/WebView.java:270-275 | `terminate`, arena closed, handle and arena dropped; a second close fails in the `terminate` downcall and changes nothing |
| WebViews.ClosedWebViewThrows | core/src/main/java/org/hivevm/webview/WebView.java:111-137 | after close, a call reaches no native function: `loadURL` throws `NullPointerException`, `setSize`, `run` and `close` the downcall failure |
| WebViews.ExampleSession | core/src/test/java/org/hivevm/webview/Example.java:5-26 | the example's ten native calls end with `destroy` then `terminate` on the same handle |

## Left out

- Case mapping: `toLowerCase`, `toUpperCase` and `equalsIgnoreCase` map ASCII letters only. The names and properties involved are ASCII in practice, and locale-dependent mappings are not modelled.
- `JavaText.ParseInt` accepts ASCII digits only. `Integer.parseInt` also accepts other Unicode decimal digits.
- `RegexLite` covers only the regexes the enums use: literals, alternation, `.` and `[0-9]`. `windows (95|98|me|ce)` is written as its four literal alternatives, which `find` treats the same way.
- Strings are sequences of UTF-16 code units. The UTF-8 encoding done by `arena.allocateFrom` and the decoding done by `req.getString(0)` are not modelled; only the UTF-8 length of a request is (`WebViews.Utf8Length`, which assumes surrogates come in pairs, as they do in text decoded from UTF-8). A native call records the Java string it was given.
- The foreign function interface (`Linker`, upcall stubs, `MemorySegment` reads of `seq` and `arg`) is not modelled. A native call is an entry in the ghost trace. `webview.h`'s numeric constants (hints, error codes) are kept symbolic.
- `WebView.runAsync` starts a thread and is not modelled. Concurrency is outside the model.
- `WebView.dispatch`'s body is commented out in the source, so `eval` never evaluates. The model keeps that.
- `WebViews.Respond`: the exception `req.getString(0)` throws for a request that does not fit is not modelled. Its stack text is the parameter `readFailure`.
- `WebViews.DowncallFailure`: `webview_h.java`, which holds the downcall wrappers, is not part of this model. Its wrappers are taken to follow the generated pattern of `ffi/webview_bind$fn.java:54-61`, which rethrows every failure as `AssertionError("should not reach here", cause)`. The cause, the exception the invocation raised for the `null` handle, is not modelled.
- `WebViewUtil.getExceptionStack` prints a stack trace into a string and is not modelled. The stack text is an input of `Respond`.
- `printStackTrace`, `System.err` and `deleteOnExit` are output or exit-time effects and are not modelled.
- A handler exception inside the callback after close would cross the native boundary. Its effect on the JVM is not modelled.
- `NativeLoaders.LoadAll`: reading the resource, writing the file and `System.load` are parameters. Deleting an existing target is not modelled: it does not change which files are loaded. Paths use `/` as the only separator and are not made absolute.
- `WebViews.WebView.constructor` / `WebViews.WebView.Sized`: `NativeLoader.load()` is called inside a try that swallows every failure (the `RuntimeException` it builds is never thrown). The constructors therefore do not call `Load`. The handle `webview_create` returns is a parameter.
- `Platforms.DetectPlatform` reports the first failing initialiser's exception itself. The JVM wraps it in `ExceptionInInitializerError`, which is not modelled.
- `LinuxLibCs.IsGnu` takes each probe's outcome as a parameter (text read or `IOException`). Reading `/usr/bin/ldd`, starting the process and shell semantics are not modelled. `NativeLoaders.Libraries` takes the answer of `isGNU` as a boolean.
- Public fields are not modelled as assignable from outside the class. `handle` and `arena` change only through the methods shown.

## Findings

| source | as written | input that shows it | evidently intended | confidence | as-written member | corrected member |
|---|---|---|---|---|---|---|
| core/src/main/java/org/hivevm/webview/util/LinuxLibC.java:66-67 | `Runtime.exec(String)` splits the command line at white space and knows nothing of quotes, so `sh` gets `-c` and the script `'getconf`, with the other words as positional parameters | the probe command `sh -c 'getconf GNU_LIBC_VERSION 2>&1 \|\| true; ldd --version 2>&1 \|\| true'` | run `sh -c` with the whole quoted text as one argument (`exec(String[])`) | not executed | LinuxLibCs.ExecSplitsQuotedScript, LinuxLibCs.ProbeCommandAsExecuted | LinuxLibCs.ShArgv, LinuxLibCs.ArgvVersusTokens |
