# Microclimate debug attach and console bookkeeping, in Dafny

This project models three sequential cores of the Microclimate Eclipse plug-in:

- **`EclipseApplication`** (`eclipse_application.dfy`) covers one Microclimate application in the workbench (`MCEclipseApplication`).
  - It holds the old-style app and build consoles, the `HashSet` of socket consoles, and the single debug `launch` field.
  - It models the clear / attach / reconnect protocol against the Eclipse launch manager.
  - The launch manager is a `LaunchManager` object: registered launches in order, the debug target of each launch, and the saved launch configurations. The error log is a `Logger`.
  - Whether a disconnect or a configuration delete throws is a parameter.
  - `connectDebugger` schedules a job. It is modelled as a counter of scheduled jobs (`ConnectDebugger`), and what a job does when it runs is `RunConnectJob`.
  - The predicate `Valid` says that, of the launches this application started, only the current one may still be registered ("never two launches").
  - `ClearDebugger`, `AttachDebugger`, `ReconnectDebugger`, `ReconnectDebuggerAsWritten`, `Dispose` and `RunConnectJobClearingFirst` keep `Valid` when it held before.
  - `RunConnectJob` keeps `Valid` only when the application's previous launch is no longer registered. So `Valid` is not an invariant of the program as written: two connect jobs scheduled before either runs leave the first launch registered (see Findings). The operations therefore require only that the launch manager has no duplicate registrations.
- **`NodeJSDebugLauncher`** (`nodejs_debug_launcher.dfy`) covers the Node.js devtools endpoint discovery:
  - the bounded probe loop of `getDebugURL`, proved against the specification function `Scan`;
  - the `ws=` host:port rewrite;
  - the one-probe `canAttachDebugger`;
  - the error path of `launchDebugger`;
  - the browser lookup `foundValidBrowser`.
  
  Each HTTP GET is an abstract `Probe` supplied per attempt.
- **`MicroclimateDebugConnector`** (`debug_connector.dfy`) covers the JDI attach loop of `connectDebugger`:
  - the attribute check;
  - the attempt budget, in Java 32-bit int arithmetic;
  - the cancellation check and attach call on every pass;
  - the mapping of the last recorded exception to the result.
  
  Each pass of the loop is an abstract `Poll`.
- **`JavaLang`** (`java_lang.dfy`) gives the Java library semantics the cores rely on:
  - null as `Option`;
  - int wrap-around;
  - `String.indexOf`, `String.replace` (including the empty target), `trim` and `equalsIgnoreCase`;
  - `Integer.toString`.

Paths below are relative to the repository root. `MCEclipseApplication.java` is `dev/com.ibm.microclimate.core/src/com/ibm/microclimate/core/internal/MCEclipseApplication.java`.

## Model

| member | source | states |
|---|---|---|
| EclipseApplication.RemoveFirst | dev/com.ibm.microclimate.core/src/com/ibm/microclimate/core/internal/MCEclipseApplication.java:151 | `removeLaunch` drops one occurrence of a registered launch, leaves an unregistered list unchanged, and keeps every other launch |
| EclipseApplication.RemoveFirstDistinct | dev/com.ibm.microclimate.core/src/com/ibm/microclimate/core/internal/MCEclipseApplication.java:151 | in a manager without duplicate registrations, the removed launch is no longer registered and there are still no duplicates |
| EclipseApplication.ClearTearsDown | dev/com.ibm.microclimate.core/src/com/ibm/microclimate/core/internal/MCEclipseApplication.java:140-162 | clearing a launch always deregisters it and leaves the other launches and their targets alone. Its target stays connected only if the disconnect failed. Its configuration is gone unless the delete failed. At most one log entry is written per failed step |
| EclipseApplication.SupportsDebug | dev/com.ibm.microclimate.core/src/com/ibm/microclimate/core/internal/MCEclipseApplication.java:332-341 | true iff the type is Liberty, Spring or Node.js, debug or debug-no-init mode is supported, and restart is supported |
| EclipseApplication.DoubleAttachLeaks | dev/com.ibm.microclimate.core/src/com/ibm/microclimate/core/internal/MCEclipseApplication.java:232-243 | two `attachDebugger` calls before the first job runs, then both jobs and `dispose`, as written: the first launch stays registered and `Valid` is broken |
| EclipseApplication.DoubleAttachClearedFirst | dev/com.ibm.microclimate.core/src/com/ibm/microclimate/core/internal/MCEclipseApplication.java:232-243 | the same sequence with jobs that clear first leaves the first launch unregistered and keeps `Valid` |
| EclipseApplication.ReconnectThrowsExample | dev/com.ibm.microclimate.core/src/com/ibm/microclimate/core/internal/MCEclipseApplication.java:199-216 | with registered launches [L, M] and L disconnected, reconnecting L throws as written |
| EclipseApplication.Logger.LogError | dev/com.ibm.microclimate.core/src/com/ibm/microclimate/core/internal/MCEclipseApplication.java:147 | an error is appended to the log |
| EclipseApplication.LaunchManager.Disconnect | dev/com.ibm.microclimate.core/src/com/ibm/microclimate/core/internal/MCEclipseApplication.java:143-149 | a disconnect that does not throw leaves the target disconnected; one that throws changes nothing |
| EclipseApplication.LaunchManager.RemoveLaunch | dev/com.ibm.microclimate.core/src/com/ibm/microclimate/core/internal/MCEclipseApplication.java:151 | the launch is removed from the registered list, with no duplicates afterwards |
| EclipseApplication.LaunchManager.DeleteConfig | dev/com.ibm.microclimate.core/src/com/ibm/microclimate/core/internal/MCEclipseApplication.java:152-159 | a delete that does not throw removes the configuration; one that throws changes nothing |
| EclipseApplication.LaunchManager.SaveConfig | dev/com.ibm.microclimate.core/src/com/ibm/microclimate/core/internal/MCEclipseApplication.java:176 | `doSave` adds the configuration to the saved ones |
| EclipseApplication.LaunchManager.AddLaunch | dev/com.ibm.microclimate.core/src/com/ibm/microclimate/core/internal/MCEclipseApplication.java:176-177 | saving the configuration and launching registers the new launch last, with its target and its configuration |
| EclipseApplication.MCEclipseApplication.constructor | dev/com.ibm.microclimate.core/src/com/ibm/microclimate/core/internal/MCEclipseApplication.java:72-86 | a new application has no consoles, no launch and no pending connect job |
| EclipseApplication.MCEclipseApplication.HasAppConsole | dev/com.ibm.microclimate.core/src/com/ibm/microclimate/core/internal/MCEclipseApplication.java:88-90 | true iff the app console is non-null (no ensures: a field test) |
| EclipseApplication.MCEclipseApplication.HasBuildConsole | dev/com.ibm.microclimate.core/src/com/ibm/microclimate/core/internal/MCEclipseApplication.java:92-94 | true iff the build console is non-null (no ensures: a field test) |
| EclipseApplication.MCEclipseApplication.SetAppConsole | dev/com.ibm.microclimate.core/src/com/ibm/microclimate/core/internal/MCEclipseApplication.java:88-98 | `hasAppConsole()` is now true iff the console passed was non-null; nothing else changes |
| EclipseApplication.MCEclipseApplication.SetBuildConsole | dev/com.ibm.microclimate.core/src/com/ibm/microclimate/core/internal/MCEclipseApplication.java:92-102 | `hasBuildConsole()` is now true iff the console passed was non-null; nothing else changes |
| EclipseApplication.MCEclipseApplication.AddConsole | dev/com.ibm.microclimate.core/src/com/ibm/microclimate/core/internal/MCEclipseApplication.java:112-114 | set insertion: the active consoles become the old ones plus this one |
| EclipseApplication.MCEclipseApplication.GetConsole | dev/com.ibm.microclimate.core/src/com/ibm/microclimate/core/internal/MCEclipseApplication.java:116-123 | the returned console is active and is for that log; null exactly when no active console is for that log |
| EclipseApplication.MCEclipseApplication.RemoveConsole | dev/com.ibm.microclimate.core/src/com/ibm/microclimate/core/internal/MCEclipseApplication.java:125-129 | null changes nothing; otherwise only that console leaves the set |
| EclipseApplication.MCEclipseApplication.SetLaunch | dev/com.ibm.microclimate.core/src/com/ibm/microclimate/core/internal/MCEclipseApplication.java:131-133 | the launch field is set and nothing else changes |
| EclipseApplication.MCEclipseApplication.ClearDebugger | dev/com.ibm.microclimate.core/src/com/ibm/microclimate/core/internal/MCEclipseApplication.java:139-162 | the launch is null afterwards in every case. A previous launch is torn down as `ClearEffect` says, with failures only logged. Without a launch, nothing else changes. `Valid` is kept when it held before |
| EclipseApplication.MCEclipseApplication.ConnectDebugger | dev/com.ibm.microclimate.core/src/com/ibm/microclimate/core/internal/MCEclipseApplication.java:164-196 | one connect job is scheduled; nothing else changes until it runs |
| EclipseApplication.MCEclipseApplication.RunConnectJob | dev/com.ibm.microclimate.core/src/com/ibm/microclimate/core/internal/MCEclipseApplication.java:169-192 | as written. A job that launches registers the new launch and makes it the application's launch, and records it as started. A job whose launch throws after `doSave` leaves only the saved configuration. A job that does neither changes nothing. `Valid` holds afterwards if it held and no old launch was still registered. A still-registered old launch is left registered beside the new one |
| EclipseApplication.MCEclipseApplication.RunConnectJobClearingFirst | dev/com.ibm.microclimate.core/src/com/ibm/microclimate/core/internal/MCEclipseApplication.java:169-192 | corrected job: it clears the application's launch, as `ClearEffect` says, before registering the new one. A still-registered old launch is gone afterwards, and `Valid` is kept |
| EclipseApplication.MCEclipseApplication.AttachDebugger | dev/com.ibm.microclimate.core/src/com/ibm/microclimate/core/internal/MCEclipseApplication.java:232-243 | no change at all while the launch's target is connected. Otherwise any launch is cleared, and then one connect job is scheduled. `Valid` is kept when it held before |
| EclipseApplication.MCEclipseApplication.ReconnectDebugger | dev/com.ibm.microclimate.core/src/com/ibm/microclimate/core/internal/MCEclipseApplication.java:198-216 | with the scan stopping at the match: it clears and reconnects iff the launch is non-null and registered and its target is null or disconnected; otherwise nothing changes |
| EclipseApplication.MCEclipseApplication.ReconnectDebuggerAsWritten | dev/com.ibm.microclimate.core/src/com/ibm/microclimate/core/internal/MCEclipseApplication.java:198-216 | as written: the same state changes, and it throws a NullPointerException iff it reconnects a launch that is not the last one listed by `getLaunches()` |
| EclipseApplication.MCEclipseApplication.GetDebugTarget | dev/com.ibm.microclimate.core/src/com/ibm/microclimate/core/internal/MCEclipseApplication.java:245-255 | the launch's target if the launch is registered, null otherwise |
| EclipseApplication.MCEclipseApplication.CanAttachDebugger | dev/com.ibm.microclimate.core/src/com/ibm/microclimate/core/internal/MCEclipseApplication.java:218-230 | for Java projects, true iff the application's launch is null, is not registered, or has a null or disconnected target. For other languages, the launcher's answer, or false without a launcher |
| EclipseApplication.MCEclipseApplication.Dispose | dev/com.ibm.microclimate.core/src/com/ibm/microclimate/core/internal/MCEclipseApplication.java:257-276 | the launch is cleared as `ClearDebugger` does it, with the same log entries. The consoles handed over for removal are exactly the non-null app and build consoles and every active socket console |
| NodeJSDebugLauncher.DevtoolsUrl | dev/com.ibm.microclimate.ui/src/com/ibm/microclimate/ui/internal/debug/NodeJSDebugLauncher.java:104-107 | a URL iff the body parses as an array whose element 0 is an object with a string `devtoolsFrontendUrl`, which is the URL; any other body throws a JSON exception |
| NodeJSDebugLauncher.SegmentStart | dev/com.ibm.microclimate.ui/src/com/ibm/microclimate/ui/internal/debug/NodeJSDebugLauncher.java:110 | the segment starts just after the first `ws=`, or at offset 2 exactly when there is no `ws=` |
| NodeJSDebugLauncher.RewriteHostPort | dev/com.ibm.microclimate.ui/src/com/ibm/microclimate/ui/internal/debug/NodeJSDebugLauncher.java:110-113 | throws iff no `/` occurs at or after the segment start. Otherwise the segment runs up to the first such `/`, and every occurrence of it is replaced by `host:port` |
| NodeJSDebugLauncher.HostPortShape | dev/com.ibm.microclimate.ui/src/com/ibm/microclimate/ui/internal/debug/NodeJSDebugLauncher.java:113 | the replacement text is the host, a colon and the port's decimal digits, which read back as the port; it holds a `/` only if the host does |
| NodeJSDebugLauncher.RewriteKeepsCurrentHostPort | dev/com.ibm.microclimate.ui/src/com/ibm/microclimate/ui/internal/debug/NodeJSDebugLauncher.java:110-113 | a URL whose segment after `ws=` is already the application's `host:port` comes back from the rewrite unchanged |
| NodeJSDebugLauncher.Attempt | dev/com.ibm.microclimate.ui/src/com/ibm/microclimate/ui/internal/debug/NodeJSDebugLauncher.java:101-118 | only a bad response code neither finds nor raises. An unreachable server raises the HTTP exception. A URL is found iff the response is good and both the JSON read and the rewrite succeed |
| NodeJSDebugLauncher.GetDebugUrl | dev/com.ibm.microclimate.ui/src/com/ibm/microclimate/ui/internal/debug/NodeJSDebugLauncher.java:88-139 | the loop's result is `Scan` of the allowed probes, with at most `debugTimeout + 1` probes. A URL comes from the last probe made, and none before it found one. Without a URL, every allowed probe was made |
| NodeJSDebugLauncher.ProbeCountAtEdges | dev/com.ibm.microclimate.ui/src/com/ibm/microclimate/ui/internal/debug/NodeJSDebugLauncher.java:100 | a negative timeout gives null with no probe; a timeout of 0 gives exactly the outcome of the one probe |
| NodeJSDebugLauncher.FirstFoundWins | dev/com.ibm.microclimate.ui/src/com/ibm/microclimate/ui/internal/debug/NodeJSDebugLauncher.java:103-114 | the first probe that yields a URL decides the result, whatever follows |
| NodeJSDebugLauncher.NoneFoundThrowsLast | dev/com.ibm.microclimate.ui/src/com/ibm/microclimate/ui/internal/debug/NodeJSDebugLauncher.java:97-138 | when no probe yields a URL, the most recently raised exception is thrown, or null is returned if none was raised |
| NodeJSDebugLauncher.LastRaisedFirst | dev/com.ibm.microclimate.ui/src/com/ibm/microclimate/ui/internal/debug/NodeJSDebugLauncher.java:116-117 | the exception variable carried forward agrees with the last exception read from the end |
| NodeJSDebugLauncher.FirstFoundIndex | dev/com.ibm.microclimate.ui/src/com/ibm/microclimate/ui/internal/debug/NodeJSDebugLauncher.java:103-114 | if some probe yields a URL, there is a first one |
| NodeJSDebugLauncher.CanAttachDebugger | dev/com.ibm.microclimate.ui/src/com/ibm/microclimate/ui/internal/debug/NodeJSDebugLauncher.java:61-86 | true iff the response is good and element 0 has a non-empty `devtoolsFrontendUrl`; every exception gives false |
| NodeJSDebugLauncher.FoundImpliesCanAttach | dev/com.ibm.microclimate.ui/src/com/ibm/microclimate/ui/internal/debug/NodeJSDebugLauncher.java:61-114 | a response from which `getDebugURL` takes a URL is one `canAttachDebugger` accepts |
| NodeJSDebugLauncher.EmptyDevtoolsUrlRaises | dev/com.ibm.microclimate.ui/src/com/ibm/microclimate/ui/internal/debug/NodeJSDebugLauncher.java:107-118 | an empty devtools URL makes `substring` throw, and that attempt is recorded as an exception |
| NodeJSDebugLauncher.RewriteUsualShape | dev/com.ibm.microclimate.ui/src/com/ibm/microclimate/ui/internal/debug/NodeJSDebugLauncher.java:109-113 | for `pre + "ws=" + hp + "/" + post`, the rewrite puts `host:port` in place of `hp` after `ws=` and replaces any later occurrence of `hp` too |
| NodeJSDebugLauncher.LaunchDebugger | dev/com.ibm.microclimate.ui/src/com/ibm/microclimate/ui/internal/debug/NodeJSDebugLauncher.java:46-58 | ERROR status iff no URL was obtained, carrying the exception if one was thrown |
| NodeJSDebugLauncher.LaunchErrorIffNoProbeFound | dev/com.ibm.microclimate.ui/src/com/ibm/microclimate/ui/internal/debug/NodeJSDebugLauncher.java:46-58 | `launchDebugger` reports an error exactly when none of the allowed probes yields a URL |
| NodeJSDebugLauncher.FoundValidBrowser | dev/com.ibm.microclimate.ui/src/com/ibm/microclimate/ui/internal/debug/NodeJSDebugLauncher.java:217-239 | true iff the browser list exists and some non-null browser has a non-blank location and a name equal to the given one ignoring case |
| MicroclimateDebugConnector.Budget | dev/com.ibm.microclimate.core/src/com/ibm/microclimate/core/internal/launch/MicroclimateDebugConnector.java:58-82 | the loop always has at least one pass. The pass count is `4000 * p` wrapped once to an int, or 2 when that wrapped value is not positive, which is exactly when `timeout * 4` in int arithmetic is not positive |
| MicroclimateDebugConnector.BudgetValues | dev/com.ibm.microclimate.core/src/com/ibm/microclimate/core/internal/launch/MicroclimateDebugConnector.java:58-82 | for preferences whose product fits in an int: 2 passes for zero or negative, `4000 * p` passes for positive |
| MicroclimateDebugConnector.BudgetOverflow | dev/com.ibm.microclimate.core/src/com/ibm/microclimate/core/internal/launch/MicroclimateDebugConnector.java:58-82 | a preference of 536871 s wraps negative in int arithmetic and gives only 2 passes |
| MicroclimateDebugConnector.Conclude | dev/com.ibm.microclimate.core/src/com/ibm/microclimate/core/internal/launch/MicroclimateDebugConnector.java:106-129 | a debug target is returned iff the loop obtained a VM, and it is built on that VM. Cancellation, or no recorded exception, gives null. Any exception thrown is the last recorded one |
| MicroclimateDebugConnector.ConnectDebugger | dev/com.ibm.microclimate.core/src/com/ibm/microclimate/core/internal/launch/MicroclimateDebugConnector.java:41-137 | the loop's outcome is `Connect`, the specification. It makes no attach call when attributes or the connector are missing, and otherwise exactly the calls `AttachCalls` counts over the allowed passes |
| MicroclimateDebugConnector.AttachCallsBound | dev/com.ibm.microclimate.core/src/com/ibm/microclimate/core/internal/launch/MicroclimateDebugConnector.java:84-98 | never more attach calls than passes |
| MicroclimateDebugConnector.CancellationStops | dev/com.ibm.microclimate.core/src/com/ibm/microclimate/core/internal/launch/MicroclimateDebugConnector.java:85-88 | cancellation seen at pass k returns null after exactly k attach calls |
| MicroclimateDebugConnector.FirstSuccessEnds | dev/com.ibm.microclimate.core/src/com/ibm/microclimate/core/internal/launch/MicroclimateDebugConnector.java:89-92 | the first successful attach ends the loop with that VM after exactly that call |
| MicroclimateDebugConnector.AllFailed | dev/com.ibm.microclimate.core/src/com/ibm/microclimate/core/internal/launch/MicroclimateDebugConnector.java:84-98 | when every pass fails, every pass calls attach and the last exception is the one kept |
| MicroclimateDebugConnector.ExceptionPriority | dev/com.ibm.microclimate.core/src/com/ibm/microclimate/core/internal/launch/MicroclimateDebugConnector.java:106-135 | an IllegalConnectorArgumentsException is rethrown, an InterruptedIOException becomes the connect-timeout CoreException, another IOException is rethrown, and anything else gives null |
| MicroclimateDebugConnector.NoAttemptWithoutAttributesOrConnector | dev/com.ibm.microclimate.core/src/com/ibm/microclimate/core/internal/launch/MicroclimateDebugConnector.java:46-68 | a missing project name or host, a port of 0 or below, or a missing connector gives null |
| MicroclimateDebugConnector.TargetOnlyFromAttachedVm | dev/com.ibm.microclimate.core/src/com/ibm/microclimate/core/internal/launch/MicroclimateDebugConnector.java:116-129 | a debug target is returned only for a VM that some attach call produced |
| MicroclimateDebugConnector.CallsWithinBudget | dev/com.ibm.microclimate.core/src/com/ibm/microclimate/core/internal/launch/MicroclimateDebugConnector.java:78-84 | the loop makes at most `Budget` attach calls |
| JavaLang.Wrap32 | dev/com.ibm.microclimate.core/src/com/ibm/microclimate/core/internal/launch/MicroclimateDebugConnector.java:58-60 | the int result is in range, agrees with the exact value when that fits, and differs from it by a multiple of 2^32 |
| JavaLang.Mul32 | dev/com.ibm.microclimate.core/src/com/ibm/microclimate/core/internal/launch/MicroclimateDebugConnector.java:58-60 | int multiplication is in range and exact when the product fits |
| JavaLang.WrapCongruent | dev/com.ibm.microclimate.core/src/com/ibm/microclimate/core/internal/launch/MicroclimateDebugConnector.java:78 | values 2^32 apart wrap to the same int |
| JavaLang.MulMulWrap | dev/com.ibm.microclimate.core/src/com/ibm/microclimate/core/internal/launch/MicroclimateDebugConnector.java:78 | `(p * 1000) * 4` in ints equals `p * 4000` wrapped once |
| JavaLang.IndexOf | dev/com.ibm.microclimate.ui/src/com/ibm/microclimate/ui/internal/debug/NodeJSDebugLauncher.java:110-111 | the first occurrence at or after the start position, or -1 exactly when there is none |
| JavaLang.ReplaceBySelf | dev/com.ibm.microclimate.ui/src/com/ibm/microclimate/ui/internal/debug/NodeJSDebugLauncher.java:113 | replacing a target by itself is the identity, empty target included |
| JavaLang.ReplaceAfterClearPrefix | dev/com.ibm.microclimate.ui/src/com/ibm/microclimate/ui/internal/debug/NodeJSDebugLauncher.java:113 | the left-to-right scan copies a prefix holding no occurrence, replaces the next one, and continues after it |
| JavaLang.OccursAfterFirst | dev/com.ibm.microclimate.ui/src/com/ibm/microclimate/ui/internal/debug/NodeJSDebugLauncher.java:110-113 | dropping the first character shifts every occurrence one place left |
| JavaLang.TrimEmptyIffBlank | dev/com.ibm.microclimate.ui/src/com/ibm/microclimate/ui/internal/debug/NodeJSDebugLauncher.java:227-228 | `trim()` gives "" exactly when every character is at most U+0020 |
| JavaLang.TrimStartBlank | dev/com.ibm.microclimate.ui/src/com/ibm/microclimate/ui/internal/debug/NodeJSDebugLauncher.java:228 | trimming the front empties exactly a blank string, and otherwise stops at a non-blank character |
| JavaLang.TrimEndKeepsNonBlank | dev/com.ibm.microclimate.ui/src/com/ibm/microclimate/ui/internal/debug/NodeJSDebugLauncher.java:228 | trimming the back cannot empty a string that starts with a non-blank character |
| JavaLang.CharEqualsIgnoreCaseIffUpper | dev/com.ibm.microclimate.ui/src/com/ibm/microclimate/ui/internal/debug/NodeJSDebugLauncher.java:231 | the per-character case-insensitive test holds iff the upper-case forms are equal |
| JavaLang.EqualsIgnoreCaseIffSameUpper | dev/com.ibm.microclimate.ui/src/com/ibm/microclimate/ui/internal/debug/NodeJSDebugLauncher.java:231 | `equalsIgnoreCase` holds iff both strings have the same upper-case form |
| JavaLang.NatToDecimalRoundTrip | dev/com.ibm.microclimate.ui/src/com/ibm/microclimate/ui/internal/debug/NodeJSDebugLauncher.java:113 | `Integer.toString` of a non-negative port is non-empty, all decimal digits, and reads back as the port |

## Left out

- Job scheduling, threading and `synchronized`. The model is sequential. A connect job is a counter (`ConnectDebugger`), and its run is the separate step `RunConnectJob`.
- RunConnectJob: the non-Java branch, which calls the language's launcher, is the case where nothing is set. A failure is modelled only by whether the configuration was saved. The configuration's attributes and the `IStatus` returned are not modelled.
- CanAttachDebugger: for non-Java languages the launcher's own answer is a parameter.
- EclipseApplication.IsThisLogInfo: ProjectLogInfo.java is not part of this model. Log infos match when their type and name are equal.
- Dispose: the consoles passed to the console manager are returned as a set. The array's order, the same console listed twice, and `super.dispose()` are not modelled; MicroclimateApplication.java is not part of this model.
- The project capabilities come from MicroclimateApplication.java, which is not part of this model. They are a constant of the application.
- Logging: only the two errors `clearDebugger` logs are recorded; other `MCLogger` calls are not.
- GetDebugUrl: `new URI(...)` runs outside the try, so a malformed host or port throws before any probe. This path is not modelled; every call probes.
- GetDebugUrl, LaunchErrorIffNoProbeFound: `debugTimeout == Integer.MAX_VALUE` is not modelled; they require a smaller timeout. With that timeout `i <= debugTimeout` never fails, because `i` wraps to `Integer.MIN_VALUE`, so the loop does not end until a probe finds a URL. Both also require at least as many supplied probes as the loop may make.
- HTTP (`HttpUtil.get`) and JSON parsing are replaced by abstract probes. A field that is absent and one that is not a string both make `getString` throw.
- `Thread.sleep` and the `itr % 8` progress log are not modelled, since only the attempt count matters.
- `LaunchUtilities`, the JDI connector arguments and `createLocalJDTDebugTarget` are foreign calls. A debug target is identified by its VM.
- ConnectDebugger (connector): reading the launch configuration and its attributes (`getLaunchConfiguration`, `getAttribute`) is assumed not to throw. A CoreException, or a NullPointerException on a null configuration, propagating out of `connectDebugger` is not modelled.
- ConnectDebugger (connector): the `do { … } while (retry)` runs its body once, since `retry` is never set. It is modelled as that single pass.
- `openNodeJSDebugger`, `openBrowserDialog` and the browser preference: these are UI dialogs.
- EqualsIgnoreCase: only ASCII letters are case-mapped; Unicode case folding is not modelled.
- Marker creation and validation (`validationEvent`, `resetValidation`) and `buildComplete` are workspace resource API and are not modelled.
- The UI action and view classes and the integration tests are not modelled.

## Findings

| source | as written | input that shows it | evidently intended | confidence | as-written member | corrected member |
|---|---|---|---|---|---|---|
| dev/com.ibm.microclimate.core/src/com/ibm/microclimate/core/internal/MCEclipseApplication.java:203-214 | after `clearDebugger()` sets `launch` to null, the loop over the `getLaunches()` array goes on and calls `launch.equals(...)` on null | registered launches [L, M], the application's launch is L, and L's debug target is disconnected | stop scanning once the launch is found | not executed | EclipseApplication.MCEclipseApplication.ReconnectDebuggerAsWritten | EclipseApplication.MCEclipseApplication.ReconnectDebugger |
| dev/com.ibm.microclimate.core/src/com/ibm/microclimate/core/internal/MCEclipseApplication.java:176-178 | a connect job sets its new launch without clearing the one the application holds, and `attachDebugger` schedules a job whenever the launch is null, even while an earlier job is pending | `attachDebugger` twice before the first job runs, then both jobs (launches L1 and L2), then `dispose` | a job clears the application's previous launch before setting its own, so no launch of the application stays registered | not executed | EclipseApplication.DoubleAttachLeaks | EclipseApplication.MCEclipseApplication.RunConnectJobClearingFirst |
