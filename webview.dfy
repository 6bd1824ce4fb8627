/**
 * `WebView`: the facade over the native webview library. The object holds the
 * native handle and the arena its strings are allocated in; every operation
 * is one or two calls into the library, recorded here in a ghost trace. The
 * native side is not modelled: what `webview_create` returns and what a bound
 * handler answers are parameters.
 */
module WebViews {
  import opened JavaText
  import opened WebViewUtil

  /** A native address; 0 is `MemorySegment.NULL`. */
  type Address = nat

  const NULL: Address := 0

  /** A Java `int`. */
  type Int32 = x: int | IntMin <= x <= IntMax

  /** The size hints of the native library: `WEBVIEW_HINT_NONE`, `_MIN`, `_MAX` and `_FIXED`. */
  datatype Hint = NONE | MIN | MAX | FIXED

  /** The statuses a binding answers with: `WEBVIEW_ERROR_OK` and `WEBVIEW_ERROR_UNSPECIFIED`. */
  datatype Status = OK | UNSPECIFIED

  /** One call into the native library, with the strings it was given. */
  datatype NativeCall =
    | Create(debug: int, window: Address)
    | Navigate(webview: Address, url: JString)
    | SetHtml(webview: Address, html: JString)
      /** `title` is None when the pointer passed is `NULL`. */
    | SetTitle(webview: Address, title: Option<JString>)
    | SetSize(webview: Address, width: Int32, height: Int32, hint: Hint)
    | Init(webview: Address, js: JString)
    | Bind(webview: Address, name: JString)
    | Unbind(webview: Address, name: JString)
    | Return(webview: Address, id: Address, status: Status, result: JString)
    | Run(webview: Address)
    | Destroy(webview: Address)
    | Terminate(webview: Address)

  /** Work handed to `dispatch`: the lambda of `eval`, which would evaluate `script`. */
  datatype Deferred = DeferredEval(script: JString)

  /** How a Java method ended: normally, or by throwing. */
  datatype Outcome = Normal | Threw(error: Exception)

  /**
   * What a generated downcall wrapper throws when the native invocation itself
   * fails, as for a `null` handle: every failure is rethrown as
   * `AssertionError("should not reach here", cause)`.
   */
  const DowncallFailure: Exception := AssertionError(Lit("should not reach here"))

  /** A confined arena: open until closed, and closed only once. */
  class Arena {
    var open: bool

    /** `Arena.ofConfined()`. */
    constructor ()
      ensures open
    {
      open := true;
    }

    /** `close()`; a second close throws. */
    method Close() returns (outcome: Outcome)
      modifies this
      ensures !open
      ensures outcome == if old(open) then Normal else Threw(IllegalStateException(Lit("Already closed")))
    {
      if !open {
        return Threw(IllegalStateException(Lit("Already closed")));
      }
      open := false;
      outcome := Normal;
    }
  }

  /* ---------------- the bind callback's answer ---------------- */

  /** What a bound Java handler did with a request: returned a string or `null`, or threw with this stack text. */
  datatype HandlerOutcome = Returned(value: Option<JString>) | Raised(stack: JString)

  /** The status and text a callback hands to `webview_return`. */
  datatype Response = Response(status: Status, text: JString)

  /** The text a JavaScript caller receives for `"` + `jsonEscape(stack)` + `"`. */
  function Quoted(body: JString): (q: JString)
    ensures |q| == |body| + 2 && q[0] == QUOTE && q[|q| - 1] == QUOTE && q[1..|q| - 1] == body
  {
    [QUOTE] + body + [QUOTE]
  }

  /* ---------------- reading the request ---------------- */

  /**
   * The UTF-8 bytes of one code unit of a string read from native memory: one
   * below U+0080, two below U+0800, two for each half of a surrogate pair (four
   * for the pair), three otherwise.
   */
  function Utf8UnitLength(c: JChar): nat
  {
    if c < 0x80 then 1
    else if c < 0x800 then 2
    else if 0xD800 <= c <= 0xDFFF then 2
    else 3
  }

  /** The length in bytes of the UTF-8 text a string was decoded from. */
  function Utf8Length(s: JString): (n: nat)
    ensures |s| <= n <= 3 * |s|
  {
    if |s| == 0 then 0 else Utf8Length(s[..|s| - 1]) + Utf8UnitLength(s[|s| - 1])
  }

  /** An ASCII string takes one byte per character. */
  lemma {:induction false} Utf8LengthAscii(s: JString)
    requires forall i :: 0 <= i < |s| ==> s[i] < 0x80
    ensures Utf8Length(s) == |s|
  {
    if |s| > 0 {
      Utf8LengthAscii(s[..|s| - 1]);
    }
  }

  /**
   * The bytes the upcall's request segment spans: its target layout is a
   * sequence of 10 Java chars.
   */
  const REQUEST_SEGMENT_BYTES: nat := 20

  /**
   * `req.getString(0)` reads a NUL-terminated string inside the segment: it
   * succeeds only when the text and its terminator fit in the segment's bytes.
   */
  predicate RequestFits(request: JString)
  {
    Utf8Length(request) < REQUEST_SEGMENT_BYTES
  }

  /**
   * The answer of the callback installed by `bind`. A request too long for its
   * segment cannot be read: the exception of `getString` (whose stack text is
   * `readFailure`) is answered at once, and the handler is not called.
   * Otherwise the handler sees the request with unsafe characters forced to
   * `\uXXXX`; its result, or "null" for `null`, goes back with the same
   * treatment and status OK; a throwable goes back as a JSON string of its stack
   * text, with status UNSPECIFIED.
   */
  function Respond(request: JString, handler: JString -> HandlerOutcome, readFailure: JString): (r: Response)
    ensures r.status == OK <==> RequestFits(request) && handler(SafeChars(request)).Returned?
    ensures r.status == OK ==> IsNulFreeAscii(r.text)
    ensures RequestFits(request) && handler(SafeChars(request)) == Returned(None) ==> r.text == Lit("null")
    ensures forall v :: RequestFits(request) && handler(SafeChars(request)) == Returned(Some(v)) ==>
      r.text == SafeChars(v)
    ensures r.status == UNSPECIFIED ==>
      |r.text| >= 2 && r.text[0] == QUOTE && r.text[|r.text| - 1] == QUOTE
      && JsonUnescape(r.text[1..|r.text| - 1], false)
         == Some(if RequestFits(request) then handler(SafeChars(request)).stack else readFailure)
  {
    if !RequestFits(request) then
      JsonEscapedRoundTrip(readFailure, false);
      Response(UNSPECIFIED, Quoted(JsonEscaped(readFailure)))
    else
      match handler(SafeChars(request))
      case Returned(value) =>
        var text := value.GetOr(Lit("null"));
        SafeCharsNulFreeAscii(text);
        SafeCharsIdentity(text);
        assert IsNulFreeAscii(Lit("null"));
        Response(OK, SafeChars(text))
      case Raised(stack) =>
        JsonEscapedRoundTrip(stack, false);
        Response(UNSPECIFIED, Quoted(JsonEscaped(stack)))
  }

  /**
   * A request of 20 UTF-8 bytes or more fails whatever the handler would have
   * done: the answer is the same for every handler, and is an error.
   */
  lemma LongRequestFails(request: JString, h: JString -> HandlerOutcome, h': JString -> HandlerOutcome,
                         readFailure: JString)
    requires !RequestFits(request)
    ensures Respond(request, h, readFailure) == Respond(request, h', readFailure)
    ensures Respond(request, h, readFailure).status == UNSPECIFIED
  {
  }

  /** An ASCII request fits exactly when it has at most 19 characters. */
  lemma AsciiRequestFits(request: JString)
    requires forall i :: 0 <= i < |request| ==> request[i] < 0x80
    ensures RequestFits(request) <==> |request| < 20
  {
    Utf8LengthAscii(request);
  }

  /**
   * The `echo` binding of the example program hands back its argument: a request
   * that fits its segment and is NUL-free ASCII (as JSON argument arrays from
   * the page are, once non-ASCII is escaped) comes back unchanged with status OK.
   */
  lemma EchoRoundTrip(request: JString, handler: JString -> HandlerOutcome, readFailure: JString)
    requires forall x :: handler(x) == Returned(Some(x))
    requires IsNulFreeAscii(request) && RequestFits(request)
    ensures Respond(request, handler, readFailure) == Response(OK, request)
  {
    SafeCharsIdentity(request);
    assert handler(SafeChars(request)) == Returned(Some(request));
  }

  /**
   * `await echo(1,2,3)` of the example program answers `[1,2,3]`; the twenty
   * characters of `echo(1,2,3,4,5,6,7,8,10)`'s arguments do not reach the handler.
   */
  lemma EchoExamples(handler: JString -> HandlerOutcome, readFailure: JString)
    requires forall x :: handler(x) == Returned(Some(x))
    ensures Respond(Lit("[1,2,3]"), handler, readFailure) == Response(OK, Lit("[1,2,3]"))
    ensures Respond(Lit("[1,2,3,4,5,6,7,8,10]"), handler, readFailure).status == UNSPECIFIED
  {
    var short := Lit("[1,2,3]");
    var long := Lit("[1,2,3,4,5,6,7,8,10]");
    AsciiRequestFits(short);
    AsciiRequestFits(long);
    EchoRoundTrip(short, handler, readFailure);
  }

  /* ---------------- the init script ---------------- */

  const InitOpen: JString := Lit("(() => {\n  try {\n    if (window.top == window.self || ")
  const InitGuardEnd: JString := Lit(") {\n      ")
  const InitCatch: JString :=
    Lit("\n    }\n  } catch (e) {\n    console.error('[Webview]', 'An error occurred whilst evaluating init script:', ")
  const InitClose: JString := Lit(", e);\n  }\n")

  /** `%b` of a boolean. */
  function BooleanText(b: bool): JString
  {
    if b then Lit("true") else Lit("false")
  }

  /** The part of the init template before the script, with `%b` filled in. */
  function InitHead(allowNestedAccess: bool): JString
  {
    InitOpen + BooleanText(allowNestedAccess) + InitGuardEnd
  }

  /** A script template filled in: the script itself, then later its quoted JSON escape. */
  function FillTemplate(head: JString, script: JString, middle: JString, tail: JString): JString
  {
    head + script + middle + Quoted(JsonEscaped(script)) + tail
  }

  /**
   * The script `setInitScript` installs: the template of `WebView.java` filled
   * with the nesting flag, the script, and the script as a quoted JSON string for
   * the error report. The template opens `(() => {` and never closes it; that is
   * kept as it is.
   */
  function InitScript(script: JString, allowNestedAccess: bool): JString
  {
    FillTemplate(InitHead(allowNestedAccess), script, InitCatch, InitClose)
  }

  /**
   * The installed text runs the script verbatim, and its error report carries a
   * quoted string that reads back as the script.
   */
  lemma InitScriptCarriesScript(script: JString, allowNestedAccess: bool)
    ensures var r := InitScript(script, allowNestedAccess);
      var k := |InitHead(allowNestedAccess)|;
      var q := k + |script| + |InitCatch|;
      var e := |JsonEscaped(script)|;
      q + e + 2 <= |r| && r[k..k + |script|] == script
      && r[q] == QUOTE && r[q + e + 1] == QUOTE && JsonUnescape(r[q + 1..q + e + 1], false) == Some(script)
  {
    TemplateCarriesScript(InitHead(allowNestedAccess), script, InitCatch, InitClose);
  }

  /** A script placed in a template, followed by its quoted JSON escape, can be found and read back. */
  lemma TemplateCarriesScript(head: JString, script: JString, middle: JString, tail: JString)
    ensures var r := FillTemplate(head, script, middle, tail);
      var q := |head| + |script| + |middle|;
      var e := |JsonEscaped(script)|;
      q + e + 2 <= |r| && r[|head|..|head| + |script|] == script
      && r[q] == QUOTE && r[q + e + 1] == QUOTE && JsonUnescape(r[q + 1..q + e + 1], false) == Some(script)
  {
    var quoted := Quoted(JsonEscaped(script));
    var r := FillTemplate(head, script, middle, tail);
    var q := |head| + |script| + |middle|;
    assert r[|head|..|head| + |script|] == script;
    assert r[q..q + |quoted|] == quoted;
    assert r[q + 1..q + |quoted| - 1] == quoted[1..|quoted| - 1];
    JsonEscapedRoundTrip(script, false);
  }

  /* ---------------- the facade ---------------- */

  class WebView {
    /** The native webview; None once closed (`null`). */
    var handle: Option<Address>
    /** The arena strings are allocated in; `null` once closed. */
    var arena: Arena?
    /** The native calls made so far, in order. */
    ghost var trace: seq<NativeCall>

    /** Handle and arena are set together and cleared together; a held arena is open. */
    ghost predicate Valid()
      reads this, arena
    {
      (handle.Some? <==> arena != null) && (arena != null ==> arena.open)
    }

    /** `new WebView(debug)`: the 800 x 600 default size. */
    constructor (debug: bool, created: Address)
      ensures Valid() && fresh(arena) && handle == Some(created)
      ensures trace == [Create(1, NULL), Navigate(created, Lit("about:blank")), NativeCall.SetSize(created, 800, 600, NONE)]
    {
      arena := new Arena();
      handle := Some(created);
      trace := [Create(1, NULL)];
      new;
      var navigated := LoadURL(None);
      var sized := SetSize(800, 600);
    }

    /**
     * `new WebView(debug, width, height)`: loading the native library has been
     * attempted and any failure swallowed; then the webview is created without
     * debugging (`webview_create(1, NULL)`, whatever `debug` says), pointed at
     * "about:blank" and given its size. `created` is what `webview_create` returns.
     */
    constructor Sized(debug: bool, width: Int32, height: Int32, created: Address)
      ensures Valid() && fresh(arena) && handle == Some(created)
      ensures trace == [Create(1, NULL), Navigate(created, Lit("about:blank")), NativeCall.SetSize(created, width, height, NONE)]
    {
      arena := new Arena();
      handle := Some(created);
      trace := [Create(1, NULL)];
      new;
      var navigated := LoadURL(None);
      var sized := SetSize(width, height);
    }

    /** `setHTML`: a `null` text, like a closed webview, throws `NullPointerException`. */
    method SetHTML(html: Option<JString>) returns (outcome: Outcome)
      requires Valid()
      modifies this
      ensures Valid() && handle == old(handle) && arena == old(arena)
      ensures outcome == if handle.Some? && html.Some? then Normal else Threw(NullPointerException)
      ensures trace == if outcome.Normal? then old(trace) + [SetHtml(handle.value, html.value)] else old(trace)
    {
      if arena == null || html.None? {
        return Threw(NullPointerException);
      }
      trace := trace + [SetHtml(handle.value, html.value)];
      outcome := Normal;
    }

    /** `loadURL`: navigates to the URL, or to "about:blank" when it is `null`. */
    method LoadURL(url: Option<JString>) returns (outcome: Outcome)
      requires Valid()
      modifies this
      ensures Valid() && handle == old(handle) && arena == old(arena)
      ensures outcome == if handle.Some? then Normal else Threw(NullPointerException)
      ensures trace == if outcome.Normal? then old(trace) + [Navigate(handle.value, url.GetOr(Lit("about:blank")))]
                       else old(trace)
    {
      var target := if url.None? then Lit("about:blank") else url.value;
      if arena == null {
        return Threw(NullPointerException);
      }
      trace := trace + [Navigate(handle.value, target)];
      outcome := Normal;
    }

    /**
     * `setTitle`: a `null` title is passed on as a `NULL` pointer. Once closed, a
     * title cannot be allocated (`NullPointerException`), and a `null` title
     * reaches the downcall with a `null` handle.
     */
    method SetTitle(title: Option<JString>) returns (outcome: Outcome)
      requires Valid()
      modifies this
      ensures Valid() && handle == old(handle) && arena == old(arena)
      ensures outcome == if handle.Some? then Normal
                         else if title.Some? then Threw(NullPointerException) else Threw(DowncallFailure)
      ensures trace == if outcome.Normal? then old(trace) + [NativeCall.SetTitle(handle.value, title)] else old(trace)
    {
      if handle.None? {
        return Threw(if title.Some? then NullPointerException else DowncallFailure);
      }
      trace := trace + [NativeCall.SetTitle(handle.value, title)];
      outcome := Normal;
    }

    /** The one native call of the four size setters; once closed, the downcall fails on the `null` handle. */
    method SetSizeWithHint(width: Int32, height: Int32, hint: Hint) returns (outcome: Outcome)
      requires Valid()
      modifies this
      ensures Valid() && handle == old(handle) && arena == old(arena)
      ensures outcome == if handle.Some? then Normal else Threw(DowncallFailure)
      ensures trace == if outcome.Normal? then old(trace) + [NativeCall.SetSize(handle.value, width, height, hint)] else old(trace)
    {
      if handle.None? {
        return Threw(DowncallFailure);
      }
      trace := trace + [NativeCall.SetSize(handle.value, width, height, hint)];
      outcome := Normal;
    }

    /** `setMinSize`: hint MIN. */
    method SetMinSize(width: Int32, height: Int32) returns (outcome: Outcome)
      requires Valid()
      modifies this
      ensures Valid() && handle == old(handle) && arena == old(arena)
      ensures outcome == if handle.Some? then Normal else Threw(DowncallFailure)
      ensures trace == if outcome.Normal? then old(trace) + [NativeCall.SetSize(handle.value, width, height, MIN)] else old(trace)
    {
      outcome := SetSizeWithHint(width, height, MIN);
    }

    /** `setMaxSize`: hint MAX. */
    method SetMaxSize(width: Int32, height: Int32) returns (outcome: Outcome)
      requires Valid()
      modifies this
      ensures Valid() && handle == old(handle) && arena == old(arena)
      ensures outcome == if handle.Some? then Normal else Threw(DowncallFailure)
      ensures trace == if outcome.Normal? then old(trace) + [NativeCall.SetSize(handle.value, width, height, MAX)] else old(trace)
    {
      outcome := SetSizeWithHint(width, height, MAX);
    }

    /** `setSize`: hint NONE. */
    method SetSize(width: Int32, height: Int32) returns (outcome: Outcome)
      requires Valid()
      modifies this
      ensures Valid() && handle == old(handle) && arena == old(arena)
      ensures outcome == if handle.Some? then Normal else Threw(DowncallFailure)
      ensures trace == if outcome.Normal? then old(trace) + [NativeCall.SetSize(handle.value, width, height, NONE)] else old(trace)
    {
      outcome := SetSizeWithHint(width, height, NONE);
    }

    /** `setFixedSize`: hint FIXED. */
    method SetFixedSize(width: Int32, height: Int32) returns (outcome: Outcome)
      requires Valid()
      modifies this
      ensures Valid() && handle == old(handle) && arena == old(arena)
      ensures outcome == if handle.Some? then Normal else Threw(DowncallFailure)
      ensures trace == if outcome.Normal? then old(trace) + [NativeCall.SetSize(handle.value, width, height, FIXED)] else old(trace)
    {
      outcome := SetSizeWithHint(width, height, FIXED);
    }

    /** `setInitScript(script, allowNestedAccess)`: installs the filled-in template. */
    method SetInitScriptNested(script: JString, allowNestedAccess: bool) returns (outcome: Outcome)
      requires Valid()
      modifies this
      ensures Valid() && handle == old(handle) && arena == old(arena)
      ensures outcome == if handle.Some? then Normal else Threw(NullPointerException)
      ensures trace == if outcome.Normal? then old(trace) + [Init(handle.value, InitScript(script, allowNestedAccess))]
                       else old(trace)
    {
      var escaped := JsonEscape(script);
      var js := InitHead(allowNestedAccess) + script + InitCatch + Quoted(escaped) + InitClose;
      if arena == null {
        return Threw(NullPointerException);
      }
      trace := trace + [Init(handle.value, js)];
      outcome := Normal;
    }

    /** `setInitScript(script)`: no injection into nested frames. */
    method SetInitScript(script: JString) returns (outcome: Outcome)
      requires Valid()
      modifies this
      ensures Valid() && handle == old(handle) && arena == old(arena)
      ensures outcome == if handle.Some? then Normal else Threw(NullPointerException)
      ensures trace == if outcome.Normal? then old(trace) + [Init(handle.value, InitScript(script, false))]
                       else old(trace)
    {
      outcome := SetInitScriptNested(script, false);
    }

    /** `dispatch`: its body is commented out, so the task handed to it is never run. */
    method Dispatch(task: Deferred)
      requires Valid()
      ensures Valid()
    {
    }

    /** `eval`: hands the evaluation of `script` to `dispatch`, so nothing is evaluated and nothing is called. */
    method Eval(script: JString)
      requires Valid()
      ensures Valid()
    {
      Dispatch(DeferredEval(script));
    }

    /**
     * `bind`: registers a callback under `name`. Every failure, including a
     * closed webview, is printed and swallowed.
     */
    method Bind(name: JString) returns (outcome: Outcome)
      requires Valid()
      modifies this
      ensures Valid() && handle == old(handle) && arena == old(arena)
      ensures outcome == Normal
      ensures trace == if handle.Some? then old(trace) + [NativeCall.Bind(handle.value, name)] else old(trace)
    {
      if arena != null {
        trace := trace + [NativeCall.Bind(handle.value, name)];
      }
      outcome := Normal;
    }

    /**
     * The callback `bind` installs, as the native side invokes it with the call
     * `id` and the JSON array of arguments: it answers exactly once, through
     * `webview_return`, with `Respond`'s status and text. Once closed, the
     * response cannot be allocated and the callback throws `NullPointerException`.
     */
    method Callback(id: Address, request: JString, handler: JString -> HandlerOutcome, readFailure: JString)
      returns (outcome: Outcome)
      requires Valid()
      modifies this
      ensures Valid() && handle == old(handle) && arena == old(arena)
      ensures outcome == if handle.Some? then Normal else Threw(NullPointerException)
      ensures var r := Respond(request, handler, readFailure);
        trace == if outcome.Normal? then old(trace) + [Return(handle.value, id, r.status, r.text)] else old(trace)
    {
      var result := OK;
      var response: JString;
      if Utf8Length(request) >= REQUEST_SEGMENT_BYTES {
        result := UNSPECIFIED;
        var escaped := JsonEscape(readFailure);
        response := Quoted(escaped);
      } else {
        var safeRequest := ForceSafeChars(request);
        var answer := handler(safeRequest);
        if answer.Returned? {
          response := if answer.value.None? then Lit("null") else answer.value.value;
          response := ForceSafeChars(response);
        } else {
          result := UNSPECIFIED;
          var escaped := JsonEscape(answer.stack);
          response := Quoted(escaped);
        }
      }
      if arena == null {
        return Threw(NullPointerException);
      }
      trace := trace + [Return(handle.value, id, result, response)];
      outcome := Normal;
    }

    /** `unbind`: removes the binding called `name`. */
    method Unbind(name: JString) returns (outcome: Outcome)
      requires Valid()
      modifies this
      ensures Valid() && handle == old(handle) && arena == old(arena)
      ensures outcome == if handle.Some? then Normal else Threw(NullPointerException)
      ensures trace == if outcome.Normal? then old(trace) + [NativeCall.Unbind(handle.value, name)] else old(trace)
    {
      if arena == null {
        return Threw(NullPointerException);
      }
      trace := trace + [NativeCall.Unbind(handle.value, name)];
      outcome := Normal;
    }

    /**
     * `run`: the event loop, then the native webview is destroyed; the handle is
     * kept. Once closed, the first downcall fails on the `null` handle.
     */
    method RunLoop() returns (outcome: Outcome)
      requires Valid()
      modifies this
      ensures Valid() && handle == old(handle) && arena == old(arena)
      ensures outcome == if handle.Some? then Normal else Threw(DowncallFailure)
      ensures trace == if outcome.Normal? then old(trace) + [Run(handle.value), Destroy(handle.value)] else old(trace)
    {
      if handle.None? {
        return Threw(DowncallFailure);
      }
      trace := trace + [Run(handle.value), Destroy(handle.value)];
      outcome := Normal;
    }

    /**
     * `close`: terminates the loop, closes the arena and clears both fields. A
     * second close fails in the `webview_terminate` downcall, before the arena
     * (by then `null`) is touched.
     */
    method Close() returns (outcome: Outcome)
      requires Valid()
      modifies this, arena
      ensures Valid()
      ensures old(handle).None? ==> outcome == Threw(DowncallFailure) && handle == old(handle)
                                    && arena == old(arena) && trace == old(trace)
      ensures old(handle).Some? ==> outcome == Normal && handle.None? && arena == null && !old(arena).open
                                    && trace == old(trace) + [Terminate(old(handle).value)]
    {
      if handle.None? {
        return Threw(DowncallFailure);
      }
      trace := trace + [Terminate(handle.value)];
      var closed := arena.Close();
      handle := None;
      arena := null;
      outcome := Normal;
    }
  }

  /**
   * Once closed, every operation but `bind` throws and calls nothing: those that
   * allocate a string throw `NullPointerException` on the `null` arena, those
   * that pass only the handle fail in the downcall.
   */
  method ClosedWebViewThrows(w: WebView, url: Option<JString>)
    requires w.Valid() && w.handle.None?
    modifies w
    ensures w.Valid() && w.trace == old(w.trace)
  {
    var loaded := w.LoadURL(url);
    assert loaded == Threw(NullPointerException);
    var sized := w.SetSize(1, 1);
    assert sized == Threw(DowncallFailure);
    var ran := w.RunLoop();
    assert ran == Threw(DowncallFailure);
    var closed := w.Close();
    assert closed == Threw(DowncallFailure);
    var bound := w.Bind(Lit("echo"));
    assert bound == Normal;
  }

  /**
   * The session of the example program, closed by try-with-resources after
   * `run`: `webview_terminate` reaches the native webview after `run` destroyed it.
   */
  method ExampleSession(created: Address, handler: JString -> HandlerOutcome) returns (w: WebView)
    ensures w.Valid() && w.handle.None?
    ensures |w.trace| == 10
    ensures w.trace[8] == Destroy(created) && w.trace[9] == Terminate(created)
  {
    w := new WebView(true, created);
    var bound := w.Bind(Lit("echo"));
    var titled := w.SetTitle(Some(Lit("My Webview App")));
    var sized := w.SetSize(800, 600);
    var loaded := w.LoadURL(Some(Lit("https://google.com")));
    var ran := w.RunLoop();
    var closed := w.Close();
  }
}
