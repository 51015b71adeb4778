/**
 * Discovery of the Chrome devtools endpoint of a Node.js application: the
 * bounded probe loop of getDebugURL, the rewrite of the `ws=` host:port,
 * the one-shot canAttachDebugger probe, the error path of launchDebugger and
 * the browser lookup of foundValidBrowser.
 *
 * Each HTTP GET of `http://host:debugPort/json/list` is an abstract Probe
 * supplied by the caller, one per attempt, in order.
 */
module NodeJSDebugLauncher {
  import opened JavaLang

  /** Element 0 of the JSON array, as `getJSONObject(0)` and `getString` see it. */
  datatype Descriptor =
    | NotAnObject
      /** devtoolsFrontendUrl is None when the field is absent or not a string. */
    | Descriptor(devtoolsFrontendUrl: Option<string>)

  /** The body of a good response, as `new JSONArray(response)` sees it. */
  datatype Listing = Unparsable | Listing(entries: seq<Descriptor>)

  /** The outcome of one `HttpUtil.get(uri)`. */
  datatype Probe =
    | Good(body: Listing)
    | Bad(responseCode: int)
    | Unreachable(cause: nat)        // get threw; cause identifies the exception

  /** The exceptions an attempt can raise. */
  datatype Failure =
    | HttpFailure(cause: nat)        // thrown by HttpUtil.get
    | JsonFailure                    // JSONException: unparsable body, no element 0, no string field
    | SubstringOutOfBounds           // url.substring(start, -1)

  /** What one pass of the try block in getDebugURL ends with. */
  datatype AttemptResult = Found(url: string) | Raised(failure: Failure) | NotGood

  /** What getDebugURL returns or throws. */
  datatype DebugUrl = Url(url: string) | NoUrl | Thrown(failure: Failure)

  /** What launchDebugger returns, up to the browser dialogs. */
  datatype LaunchStatus = Error(exception: Option<Failure>) | OpenDevtools(url: string)

  /** A browser descriptor of the workbench's browser manager. */
  datatype Browser = Browser(location: Option<string>, name: Option<string>)

  /** `host + ":" + Integer.toString(debugPort)`. */
  function HostPort(host: string, debugPort: int): string {
    host + ":" + IntToString(debugPort)
  }

  /** `array.getJSONObject(0).getString(DEVTOOLS_URL_FIELD)`. */
  function DevtoolsUrl(body: Listing): (r: Result<string, Failure>)
    ensures r.Ok? <==> body.Listing? && body.entries != [] && body.entries[0].Descriptor?
                       && body.entries[0].devtoolsFrontendUrl.Some?
    ensures r.Ok? ==> r.value == body.entries[0].devtoolsFrontendUrl.value
    ensures r.Err? ==> r.error == JsonFailure
  {
    match body
    case Unparsable => Err(JsonFailure)
    case Listing(entries) =>
      if entries == [] then Err(JsonFailure)
      else match entries[0]
        case NotAnObject => Err(JsonFailure)
        case Descriptor(None) => Err(JsonFailure)
        case Descriptor(Some(url)) => Ok(url)
  }

  /** `url.indexOf("ws=") + 3`: just after the first "ws=", or 2 when there is none (indexOf gives -1). */
  function SegmentStart(url: string): (start: int)
    ensures start == 2 <==> forall j :: !OccursAt(url, "ws=", j)
    ensures start != 2 ==> OccursAt(url, "ws=", start - 3) && forall j :: 0 <= j < start - 3 ==> !OccursAt(url, "ws=", j)
  {
    IndexOf(url, "ws=", 0) + 3
  }

  /**
   * The host:port rewrite: the text from SegmentStart up to the next "/"
   * is replaced, wherever it occurs, by the application's host:port; with
   * no "/" there, substring throws.
   */
  function RewriteHostPort(url: string, host: string, debugPort: int): (r: Result<string, Failure>)
    ensures r.Err? <==> forall j :: SegmentStart(url) <= j ==> !OccursAt(url, "/", j)
    ensures r.Err? ==> r.error == SubstringOutOfBounds
    ensures r.Ok? ==>
      exists end ::
        && SegmentStart(url) <= end && OccursAt(url, "/", end)
        && (forall j :: SegmentStart(url) <= j < end ==> !OccursAt(url, "/", j))
        && r.value == Replace(url, url[SegmentStart(url)..end], HostPort(host, debugPort))
  {
    var start := SegmentStart(url);
    var end := IndexOf(url, "/", start);
    if end == -1 then Err(SubstringOutOfBounds)
    else
      assert OccursAt(url, "/", end);
      Ok(Replace(url, url[start..end], HostPort(host, debugPort)))
  }

  /** One pass of the try block of getDebugURL. */
  function Attempt(p: Probe, host: string, debugPort: int): (r: AttemptResult)
    ensures r.NotGood? <==> p.Bad?
    ensures p.Unreachable? ==> r == Raised(HttpFailure(p.cause))
    ensures r.Found? <==> p.Good? && DevtoolsUrl(p.body).Ok? && RewriteHostPort(DevtoolsUrl(p.body).value, host, debugPort).Ok?
    ensures r.Found? ==> r.url == RewriteHostPort(DevtoolsUrl(p.body).value, host, debugPort).value
  {
    match p
    case Unreachable(c) => Raised(HttpFailure(c))
    case Bad(_) => NotGood
    case Good(body) =>
      match DevtoolsUrl(body)
      case Err(f) => Raised(f)
      case Ok(url) =>
        match RewriteHostPort(url, host, debugPort)
        case Err(f) => Raised(f)
        case Ok(rewritten) => Found(rewritten)
  }

  /** The number of probes `for (i = 0; i <= debugTimeout; i++)` allows. */
  function ProbeBudget(debugTimeout: int): nat {
    if debugTimeout < 0 then 0 else debugTimeout + 1
  }

  /**
   * Specification of getDebugURL over the probes it may make: the first
   * attempt that finds a URL decides; otherwise the last exception recorded
   * (`last` carries it across attempts) is thrown, or null is returned.
   */
  function Scan(probes: seq<Probe>, host: string, debugPort: int, last: Option<Failure>): DebugUrl {
    if probes == [] then
      (if last.Some? then Thrown(last.value) else NoUrl)
    else match Attempt(probes[0], host, debugPort)
      case Found(url) => Url(url)
      case Raised(f) => Scan(probes[1..], host, debugPort, Some(f))
      case NotGood => Scan(probes[1..], host, debugPort, last)
  }

  /** No probe in the sequence yields a URL. */
  predicate NoneFound(probes: seq<Probe>, host: string, debugPort: int) {
    forall k :: 0 <= k < |probes| ==> !Attempt(probes[k], host, debugPort).Found?
  }

  /** The last exception raised by the probes, or `before` when none raises: an independent reading from the end. */
  function LastRaised(probes: seq<Probe>, host: string, debugPort: int, before: Option<Failure>): Option<Failure> {
    if probes == [] then before
    else match Attempt(probes[|probes| - 1], host, debugPort)
      case Raised(f) => Some(f)
      case _ => LastRaised(probes[..|probes| - 1], host, debugPort, before)
  }

  /**
   * getDebugURL. `answers[i]` is what the i-th HttpUtil.get yields; `probes`
   * is the number of gets made. At most debugTimeout + 1 probes are made, the
   * first URL found is returned at once, and when none is found the last
   * exception is rethrown or null is returned.
   */
  method GetDebugUrl(host: string, debugPort: int, debugTimeout: int, answers: seq<Probe>)
    returns (result: DebugUrl, probes: nat)
    requires debugTimeout < INT_MAX && debugTimeout < |answers|
    ensures result == Scan(answers[..ProbeBudget(debugTimeout)], host, debugPort, None)
    ensures probes <= ProbeBudget(debugTimeout)
    ensures result.Url? ==> 0 < probes && Attempt(answers[probes - 1], host, debugPort) == Found(result.url)
    ensures NoneFound(answers[..probes - 1 + (if result.Url? then 0 else 1)], host, debugPort)
    ensures !result.Url? ==> probes == ProbeBudget(debugTimeout)
  {
    ghost var window := answers[..ProbeBudget(debugTimeout)];
    var e: Option<Failure> := None;
    var i := 0;
    while i <= debugTimeout
      decreases debugTimeout - i
      invariant 0 <= i <= ProbeBudget(debugTimeout)
      invariant Scan(window, host, debugPort, None) == Scan(window[i..], host, debugPort, e)
      invariant NoneFound(answers[..i], host, debugPort)
    {
      ScanStep(window, host, debugPort, e, i);
      var attempt := Attempt(answers[i], host, debugPort);
      if attempt.Found? {
        result, probes := Url(attempt.url), i + 1;
        assert answers[..probes - 1] == answers[..i];
        return;
      } else if attempt.Raised? {
        e := Some(attempt.failure);
      }
      NoneFoundExtend(answers, host, debugPort, i);
      i := i + 1;
    }
    assert window[i..] == [];
    result := if e.Some? then Thrown(e.value) else NoUrl;
    probes := i;
  }

  /** One step of Scan from position i of the window. */
  lemma ScanStep(window: seq<Probe>, host: string, debugPort: int, last: Option<Failure>, i: nat)
    requires i < |window|
    ensures Scan(window[i..], host, debugPort, last) ==
      match Attempt(window[i], host, debugPort)
      case Found(url) => Url(url)
      case Raised(f) => Scan(window[i + 1..], host, debugPort, Some(f))
      case NotGood => Scan(window[i + 1..], host, debugPort, last)
  {
    assert window[i..][0] == window[i];
    assert window[i..][1..] == window[i + 1..];
  }

  /** A prefix without a URL stays so when the next probe yields none either. */
  lemma NoneFoundExtend(probes: seq<Probe>, host: string, debugPort: int, k: nat)
    requires k < |probes| && NoneFound(probes[..k], host, debugPort)
    requires !Attempt(probes[k], host, debugPort).Found?
    ensures NoneFound(probes[..k + 1], host, debugPort)
  {
    assert probes[..k + 1] == probes[..k] + [probes[k]];
  }

  /** With debugTimeout 0 exactly one probe is made; with a negative one, none, and the result is null. */
  lemma ProbeCountAtEdges(host: string, debugPort: int, debugTimeout: int, answers: seq<Probe>)
    requires debugTimeout < |answers|
    ensures debugTimeout < 0 ==> Scan(answers[..ProbeBudget(debugTimeout)], host, debugPort, None) == NoUrl
    ensures debugTimeout == 0 ==>
      Scan(answers[..ProbeBudget(debugTimeout)], host, debugPort, None) ==
        match Attempt(answers[0], host, debugPort)
        case Found(url) => Url(url)
        case Raised(f) => Thrown(f)
        case NotGood => NoUrl
  {
    if debugTimeout == 0 {
      assert answers[..1][1..] == [];
    }
  }

  /** The first probe that finds a URL decides the result, whatever follows it. */
  lemma {:induction false} FirstFoundWins(probes: seq<Probe>, host: string, debugPort: int, last: Option<Failure>, k: nat)
    requires k < |probes| && Attempt(probes[k], host, debugPort).Found?
    requires NoneFound(probes[..k], host, debugPort)
    ensures Scan(probes, host, debugPort, last) == Url(Attempt(probes[k], host, debugPort).url)
  {
    if k > 0 {
      NoneFoundDropFirst(probes, host, debugPort, k);
      var next := match Attempt(probes[0], host, debugPort)
        case Raised(f) => Some(f)
        case _ => last;
      FirstFoundWins(probes[1..], host, debugPort, next, k - 1);
    }
  }

  /** A non-empty prefix without a URL starts with a probe without one, followed by a shorter such prefix. */
  lemma NoneFoundDropFirst(probes: seq<Probe>, host: string, debugPort: int, k: nat)
    requires 0 < k <= |probes| && NoneFound(probes[..k], host, debugPort)
    ensures !Attempt(probes[0], host, debugPort).Found?
    ensures NoneFound(probes[1..][..k - 1], host, debugPort)
  {
    assert probes[0] == probes[..k][0];
    assert probes[1..][..k - 1] == probes[..k][1..];
  }

  /** When no probe finds a URL, the most recently raised exception is thrown, or null is returned if none was raised. */
  lemma {:induction false} NoneFoundThrowsLast(probes: seq<Probe>, host: string, debugPort: int, last: Option<Failure>)
    requires NoneFound(probes, host, debugPort)
    ensures Scan(probes, host, debugPort, last) ==
      match LastRaised(probes, host, debugPort, last)
      case Some(f) => Thrown(f)
      case None => NoUrl
  {
    if probes != [] {
      var next := match Attempt(probes[0], host, debugPort)
        case Raised(f) => Some(f)
        case _ => last;
      NoneFoundThrowsLast(probes[1..], host, debugPort, next);
      LastRaisedFirst(probes, host, debugPort, last);
    }
  }

  /** Reading the last exception from the end agrees with carrying it forward from the start. */
  lemma {:induction false} LastRaisedFirst(probes: seq<Probe>, host: string, debugPort: int, last: Option<Failure>)
    requires probes != []
    ensures LastRaised(probes, host, debugPort, last) ==
      LastRaised(probes[1..], host, debugPort,
        match Attempt(probes[0], host, debugPort) case Raised(f) => Some(f) case _ => last)
  {
    if |probes| > 1 {
      var n := |probes|;
      assert probes[..n - 1][1..] == probes[1..][..n - 2];
      assert probes[1..][n - 2] == probes[n - 1];
      LastRaisedFirst(probes[..n - 1], host, debugPort, last);
    }
  }

  /** `canAttachDebugger`: one probe, true iff element 0 carries a non-empty devtoolsFrontendUrl. */
  function CanAttachDebugger(p: Probe): (r: bool)
    ensures r <==> p.Good? && DevtoolsUrl(p.body).Ok? && DevtoolsUrl(p.body).value != []
  {
    match p
    case Good(Listing(entries)) =>
      if entries != [] && entries[0].Descriptor? && entries[0].devtoolsFrontendUrl.Some? then
        entries[0].devtoolsFrontendUrl.value != []
      else false
    case _ => false
  }

  /** Any response from which getDebugURL takes a URL is one canAttachDebugger accepts. */
  lemma FoundImpliesCanAttach(p: Probe, host: string, debugPort: int)
    requires Attempt(p, host, debugPort).Found?
    ensures CanAttachDebugger(p)
  {
  }

  /** An empty devtoolsFrontendUrl makes the substring call throw, so getDebugURL records an exception. */
  lemma EmptyDevtoolsUrlRaises(host: string, debugPort: int, rest: seq<Descriptor>)
    ensures Attempt(Good(Listing([Descriptor(Some("")) ] + rest)), host, debugPort) == Raised(SubstringOutOfBounds)
  {
    assert IndexOf("", "/", IndexOf("", "ws=", 0) + 3) == -1;
  }

  /**
   * For the usual shape `pre + "ws=" + hp + "/" + post`, where the "ws=" is
   * the first one, hp holds no "/", and hp does not occur before it, the
   * rewrite puts the application's host:port after "ws=".
   */
  lemma RewriteUsualShape(pre: string, hp: string, post: string, host: string, debugPort: int)
    requires hp != [] && '/' !in hp
    requires forall j :: 0 <= j < |pre| ==> !OccursAt(pre + "ws=" + hp + "/" + post, "ws=", j)
    requires forall j :: 0 <= j < |pre| + 3 ==> !OccursAt(pre + "ws=" + hp + "/" + post, hp, j)
    ensures RewriteHostPort(pre + "ws=" + hp + "/" + post, host, debugPort) ==
      Ok(pre + "ws=" + HostPort(host, debugPort) + Replace("/" + post, hp, HostPort(host, debugPort)))
  {
    var url := pre + "ws=" + hp + "/" + post;
    var x := pre + "ws=";
    assert url == x + hp + ("/" + post);
    assert url[|pre|..|pre| + 3] == "ws=";
    assert OccursAt(url, "ws=", |pre|);
    var start := IndexOf(url, "ws=", 0) + 3;
    assert start == |pre| + 3;
    var slash := |pre| + 3 + |hp|;
    assert url[slash..slash + 1] == "/";
    assert OccursAt(url, "/", slash);
    forall j | start <= j < slash ensures !OccursAt(url, "/", j) {
      assert url[j] == hp[j - start];
      assert url[j..j + 1] == [url[j]];
    }
    var end := IndexOf(url, "/", start);
    assert end == slash;
    assert url[start..end] == hp;
    ReplaceAfterClearPrefix(x, hp, "/" + post, HostPort(host, debugPort));
  }

  /**
   * The replacement text is the host, a colon and the port's decimal digits,
   * which read back as the port; it holds a "/" only if the host does.
   */
  lemma HostPortShape(host: string, debugPort: int)
    requires debugPort >= 0
    ensures HostPort(host, debugPort)[..|host| + 1] == host + ":"
    ensures ParseDecimal(HostPort(host, debugPort)[|host| + 1..]) == debugPort
    ensures '/' !in host ==> '/' !in HostPort(host, debugPort)
  {
    NatToDecimalRoundTrip(debugPort);
    var hp := HostPort(host, debugPort);
    assert hp[|host| + 1..] == NatToDecimal(debugPort);
    assert hp == host + ":" + NatToDecimal(debugPort);
    if '/' !in host {
      forall i | 0 <= i < |hp| ensures hp[i] != '/' {
        if i > |host| {
          assert hp[i] == NatToDecimal(debugPort)[i - |host| - 1];
        }
      }
    }
  }

  /** A URL whose segment is already the application's host:port comes back from the rewrite unchanged. */
  lemma RewriteKeepsCurrentHostPort(url: string, host: string, debugPort: int)
    requires IndexOf(url, "/", SegmentStart(url)) != -1
    requires url[SegmentStart(url)..IndexOf(url, "/", SegmentStart(url))] == HostPort(host, debugPort)
    ensures RewriteHostPort(url, host, debugPort) == Ok(url)
  {
    ReplaceBySelf(url, HostPort(host, debugPort));
  }

  /**
   * `launchDebugger` up to the browser dialogs: an ERROR status carrying the
   * exception, if any, whenever getDebugURL gave no URL.
   */
  function LaunchDebugger(outcome: DebugUrl): (r: LaunchStatus)
    ensures r.Error? <==> !outcome.Url?
    ensures r.Error? ==> r.exception == (if outcome.Thrown? then Some(outcome.failure) else None)
    ensures r.OpenDevtools? ==> r.url == outcome.url
  {
    match outcome
    case Url(url) => OpenDevtools(url)
    case NoUrl => Error(None)
    case Thrown(f) => Error(Some(f))
  }

  /** launchDebugger reports an error exactly when none of the allowed probes yields a URL. */
  lemma LaunchErrorIffNoProbeFound(host: string, debugPort: int, debugTimeout: int, answers: seq<Probe>)
    requires debugTimeout < INT_MAX && debugTimeout < |answers|
    ensures LaunchDebugger(Scan(answers[..ProbeBudget(debugTimeout)], host, debugPort, None)).Error?
      <==> NoneFound(answers[..ProbeBudget(debugTimeout)], host, debugPort)
  {
    var window := answers[..ProbeBudget(debugTimeout)];
    if NoneFound(window, host, debugPort) {
      NoneFoundThrowsLast(window, host, debugPort, None);
    } else {
      var k := FirstFoundIndex(window, host, debugPort);
      FirstFoundWins(window, host, debugPort, None, k);
    }
  }

  /** The position of the first probe that finds a URL. */
  lemma {:induction false} FirstFoundIndex(probes: seq<Probe>, host: string, debugPort: int) returns (k: nat)
    requires !NoneFound(probes, host, debugPort)
    ensures k < |probes| && Attempt(probes[k], host, debugPort).Found?
    ensures NoneFound(probes[..k], host, debugPort)
    decreases |probes|
  {
    if Attempt(probes[0], host, debugPort).Found? {
      k := 0;
    } else {
      NoneFoundAfterFirst(probes, host, debugPort);
      var rest := FirstFoundIndex(probes[1..], host, debugPort);
      k := rest + 1;
      NoneFoundPrepend(probes, host, debugPort, rest);
    }
  }

  /** A URL found somewhere but not by the first probe is found among the others. */
  lemma NoneFoundAfterFirst(probes: seq<Probe>, host: string, debugPort: int)
    requires !NoneFound(probes, host, debugPort)
    requires !Attempt(probes[0], host, debugPort).Found?
    ensures !NoneFound(probes[1..], host, debugPort)
  {
    var m :| 0 <= m < |probes| && Attempt(probes[m], host, debugPort).Found?;
    assert probes[1..][m - 1] == probes[m];
  }

  /** A first probe without a URL in front of a prefix without one. */
  lemma NoneFoundPrepend(probes: seq<Probe>, host: string, debugPort: int, n: nat)
    requires n < |probes| - 1
    requires !Attempt(probes[0], host, debugPort).Found?
    requires NoneFound(probes[1..][..n], host, debugPort)
    ensures NoneFound(probes[..n + 1], host, debugPort)
  {
    assert probes[..n + 1] == [probes[0]] + probes[1..][..n];
  }

  /** A browser that foundValidBrowser accepts for the name: non-null, with a non-blank location and a name equal ignoring case. */
  predicate IsValidBrowserFor(b: Option<Browser>, browserName: string) {
    b.Some? && b.value.location.Some? && !IsBlank(b.value.location.value)
      && b.value.name.Some? && UpperCase(b.value.name.value) == UpperCase(browserName)
  }

  /**
   * `foundValidBrowser`. `browsers` is None when the browser manager or its
   * list is null.
   */
  method FoundValidBrowser(browsers: Option<seq<Option<Browser>>>, browserName: string) returns (found: bool)
    ensures found <==> (browsers.Some? &&
      exists i :: 0 <= i < |browsers.value| && IsValidBrowserFor(browsers.value[i], browserName))
  {
    if browsers.None? {
      return false;
    }
    var list := browsers.value;
    var i := 0;
    while i < |list|
      invariant 0 <= i <= |list|
      invariant forall k :: 0 <= k < i ==> !IsValidBrowserFor(list[k], browserName)
    {
      var b := list[i];
      if b.Some? && b.value.location.Some? && Trim(b.value.location.value) != "" {
        TrimEmptyIffBlank(b.value.location.value);
        var name := b.value.name;
        if name.Some? && EqualsIgnoreCase(name.value, browserName) {
          EqualsIgnoreCaseIffSameUpper(name.value, browserName);
          return true;
        }
        if name.Some? {
          EqualsIgnoreCaseIffSameUpper(name.value, browserName);
        }
      } else if b.Some? && b.value.location.Some? {
        TrimEmptyIffBlank(b.value.location.value);
      }
      i := i + 1;
    }
    return false;
  }
}
