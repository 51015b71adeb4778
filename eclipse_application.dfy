/**
 * The debug-launch and console bookkeeping of one Microclimate application
 * in the Eclipse workbench (MCEclipseApplication): the console fields and
 * the set of socket consoles, the single `launch` field, and the
 * clear / attach / reconnect protocol around it.
 *
 * The debug plug-in's launch manager, the debug targets of its launches and
 * the saved launch configurations are one LaunchManager object; the error
 * log is a Logger. What a foreign call does that the model cannot see (a
 * disconnect or a configuration delete failing) is a parameter.
 */
module EclipseApplication {
  import opened JavaLang

  // ---------------------------------------------------------------------
  // Values
  // ---------------------------------------------------------------------

  datatype ProjectKind = Liberty | Spring | NodeJS | OtherKind(name: string)

  datatype Language = Java | NodeJSLanguage | OtherLanguage(name: string)

  datatype ProjectType = ProjectType(kind: ProjectKind, language: Language)

  datatype ProjectCapabilities = ProjectCapabilities(debugMode: bool, debugNoInitMode: bool, canRestart: bool)

  /** Identifies one remote log channel. */
  datatype LogInfo = LogInfo(logType: string, logName: string)

  /** `logInfo.isThisLogInfo(other)`: the same log type and name. */
  predicate IsThisLogInfo(a: LogInfo, b: LogInfo) {
    a.logType == b.logType && a.logName == b.logName
  }

  /** A socket console; `id` stands for the object's identity, which is what the HashSet compares. */
  datatype SocketConsole = SocketConsole(id: nat, logInfo: LogInfo)

  /** An old-style console handle. */
  datatype Console = Console(id: nat)

  /** A console handed to the console manager for removal. */
  datatype RemovedConsole = Plain(console: Console) | Socket(socket: SocketConsole)

  /** `launch.getDebugTarget()`: null, a target that is not disconnected, or a disconnected one. */
  datatype TargetState = NoTarget | Connected | Disconnected

  /** A launch; `id` stands for its identity, `config` for its launch configuration (null or not). */
  datatype Launch = Launch(id: nat, config: Option<nat>)

  datatype LogEntry = DisconnectFailed(project: string) | ConfigDeleteFailed(project: string)

  /** What the launch manager holds: registered launches in order, their debug targets, saved configurations. */
  datatype ManagerState = ManagerState(launches: seq<Launch>, targets: map<Launch, TargetState>, configs: set<nat>)

  /** The debug target of l as the targets map records it. */
  function TargetIn(targets: map<Launch, TargetState>, l: Launch): TargetState {
    if l in targets then targets[l] else NoTarget
  }

  predicate Distinct(s: seq<Launch>) {
    forall i, j :: 0 <= i < j < |s| ==> s[i] != s[j]
  }

  /** `List.remove(Object)`: the first occurrence of x is dropped. */
  function RemoveFirst(s: seq<Launch>, x: Launch): (r: seq<Launch>)
    ensures x in s ==> |r| == |s| - 1
    ensures x !in s ==> r == s
    ensures forall y :: y != x ==> (y in r <==> y in s)
  {
    if s == [] then []
    else if s[0] == x then s[1..]
    else [s[0]] + RemoveFirst(s[1..], x)
  }

  /** In a list without duplicates, removing x removes it altogether and keeps the list without duplicates. */
  lemma {:induction false} RemoveFirstDistinct(s: seq<Launch>, x: Launch)
    requires Distinct(s)
    ensures x !in RemoveFirst(s, x)
    ensures Distinct(RemoveFirst(s, x))
  {
    if s != [] && s[0] != x {
      assert Distinct(s[1..]) by {
        forall i, j | 0 <= i < j < |s[1..]| ensures s[1..][i] != s[1..][j] {
          assert s[1..][i] == s[i + 1] && s[1..][j] == s[j + 1];
        }
      }
      RemoveFirstDistinct(s[1..], x);
      var r := RemoveFirst(s[1..], x);
      assert s[0] !in s[1..] by {
        forall k | 0 <= k < |s[1..]| ensures s[1..][k] != s[0] {
          assert s[1..][k] == s[k + 1];
        }
      }
      assert s[0] !in r;
      forall i, j | 0 <= i < j < |[s[0]] + r| ensures ([s[0]] + r)[i] != ([s[0]] + r)[j] {
        if i == 0 {
          assert ([s[0]] + r)[j] == r[j - 1];
        } else {
          assert ([s[0]] + r)[i] == r[i - 1] && ([s[0]] + r)[j] == r[j - 1];
        }
      }
    } else if s != [] {
      assert s[0] !in s[1..] by {
        forall k | 0 <= k < |s[1..]| ensures s[1..][k] != s[0] {
          assert s[1..][k] == s[k + 1];
        }
      }
      forall i, j | 0 <= i < j < |s[1..]| ensures s[1..][i] != s[1..][j] {
        assert s[1..][i] == s[i + 1] && s[1..][j] == s[j + 1];
      }
    }
  }

  /**
   * What clearDebugger does to the launch manager for a non-null launch l:
   * a connected target is disconnected unless that fails, l is removed from
   * the registered launches, and its configuration is deleted unless that fails.
   */
  function ClearEffect(s: ManagerState, l: Launch, disconnectFails: bool, deleteFails: bool): ManagerState {
    ManagerState(
      RemoveFirst(s.launches, l),
      if TargetIn(s.targets, l) == Connected && !disconnectFails then s.targets[l := Disconnected] else s.targets,
      if l.config.Some? && !deleteFails then s.configs - {l.config.value} else s.configs)
  }

  /** What clearDebugger logs: one entry per teardown step that failed. */
  function ClearLog(s: ManagerState, l: Launch, project: string, disconnectFails: bool, deleteFails: bool): seq<LogEntry> {
    (if TargetIn(s.targets, l) == Connected && disconnectFails then [DisconnectFailed(project)] else [])
    + (if l.config.Some? && deleteFails then [ConfigDeleteFailed(project)] else [])
  }

  /** What registering a new launch with its debug target does: it is listed last and its configuration is saved. */
  function Register(s: ManagerState, l: Launch, target: TargetState): ManagerState {
    ManagerState(
      s.launches + [l],
      s.targets[l := target],
      if l.config.Some? then s.configs + {l.config.value} else s.configs)
  }

  /**
   * How a connect job ends: no launch (another language's launcher, or an
   * exception before the configuration was saved), a saved configuration
   * whose launch threw, or a new launch with its debug target.
   */
  datatype JobOutcome =
    | NotLaunched
    | SavedThenFailed(config: nat)
    | Launched(newLaunch: Launch, target: TargetState)

  /**
   * Clearing a launch from a manager without duplicate registrations leaves
   * it unregistered and every other launch as it was, never leaves its target
   * connected unless the disconnect failed, and logs exactly the steps that
   * failed, so teardown errors never stop the deregistration.
   */
  lemma ClearTearsDown(s: ManagerState, l: Launch, project: string, disconnectFails: bool, deleteFails: bool)
    requires Distinct(s.launches)
    ensures var s' := ClearEffect(s, l, disconnectFails, deleteFails);
      && l !in s'.launches
      && Distinct(s'.launches)
      && (forall x :: x != l ==> (x in s'.launches <==> x in s.launches))
      && (TargetIn(s'.targets, l) == Connected ==> disconnectFails)
      && (forall x :: x != l ==> TargetIn(s'.targets, x) == TargetIn(s.targets, x))
      && (l.config.Some? && !deleteFails ==> l.config.value !in s'.configs)
    ensures |ClearLog(s, l, project, disconnectFails, deleteFails)| <= (if disconnectFails then 1 else 0) + (if deleteFails then 1 else 0)
  {
    RemoveFirstDistinct(s.launches, l);
  }

  /** `supportsDebug()`. */
  function SupportsDebug(projectType: ProjectType, capabilities: ProjectCapabilities): (r: bool)
    ensures r ==> projectType.kind.Liberty? || projectType.kind.Spring? || projectType.kind.NodeJS?
    ensures r ==> capabilities.canRestart
    ensures r ==> capabilities.debugMode || capabilities.debugNoInitMode
    ensures !projectType.kind.OtherKind? && (capabilities.debugMode || capabilities.debugNoInitMode) && capabilities.canRestart ==> r
  {
    if projectType.kind.Liberty? || projectType.kind.Spring? || projectType.kind.NodeJS? then
      (capabilities.debugMode || capabilities.debugNoInitMode) && capabilities.canRestart
    else false
  }

  // ---------------------------------------------------------------------
  // The environment
  // ---------------------------------------------------------------------

  class Logger {
    var errors: seq<LogEntry>

    constructor ()
      ensures errors == []
    {
      errors := [];
    }

    method LogError(entry: LogEntry)
      modifies this
      ensures errors == old(errors) + [entry]
    {
      errors := errors + [entry];
    }
  }

  /** The debug plug-in's launch manager, with the debug targets and saved configurations of its launches. */
  class LaunchManager {
    var launches: seq<Launch>
    var targets: map<Launch, TargetState>
    var configs: set<nat>

    /** The manager never registers a launch twice. */
    ghost predicate Valid()
      reads this
    {
      Distinct(launches)
    }

    function State(): ManagerState
      reads this
    {
      ManagerState(launches, targets, configs)
    }

    function TargetOf(l: Launch): TargetState
      reads this
    {
      TargetIn(targets, l)
    }

    constructor ()
      ensures Valid() && launches == [] && targets == map[] && configs == {}
    {
      launches, targets, configs := [], map[], {};
    }

    /** `debugTarget.disconnect()`, which may throw. */
    method Disconnect(l: Launch, fails: bool) returns (ok: bool)
      modifies this`targets
      ensures ok == !fails
      ensures targets == if ok then old(targets)[l := Disconnected] else old(targets)
    {
      ok := !fails;
      if ok {
        targets := targets[l := Disconnected];
      }
    }

    /** `removeLaunch(l)`. */
    method RemoveLaunch(l: Launch)
      requires Valid()
      modifies this`launches
      ensures Valid()
      ensures launches == RemoveFirst(old(launches), l)
    {
      RemoveFirstDistinct(launches, l);
      launches := RemoveFirst(launches, l);
    }

    /** `launchConfig.delete()`, which may throw. */
    method DeleteConfig(c: nat, fails: bool) returns (ok: bool)
      modifies this`configs
      ensures ok == !fails
      ensures configs == if ok then old(configs) - {c} else old(configs)
    {
      ok := !fails;
      if ok {
        configs := configs - {c};
      }
    }

    /** `workingCopy.doSave()`: the configuration is saved. */
    method SaveConfig(c: nat)
      modifies this`configs
      ensures configs == old(configs) + {c}
    {
      configs := configs + {c};
    }

    /** `launchConfig.launch(DEBUG_MODE, monitor)` registering a new launch with its debug target. */
    method AddLaunch(l: Launch, target: TargetState)
      requires Valid() && l !in launches
      modifies this
      ensures Valid()
      ensures State() == Register(old(State()), l, target)
    {
      launches := launches + [l];
      targets := targets[l := target];
      if l.config.Some? {
        configs := configs + {l.config.value};
      }
    }
  }

  /** reconnectDebugger acts: the launch is non-null, registered, and its target is null or disconnected. */
  predicate NeedsReconnect(launch: Option<Launch>, s: ManagerState) {
    launch.Some? && launch.value in s.launches && TargetIn(s.targets, launch.value) != Connected
  }

  /** The position of the first occurrence of x in s. */
  function FirstIndex(s: seq<Launch>, x: Launch): (k: nat)
    requires x in s
    ensures k < |s| && s[k] == x && x !in s[..k]
  {
    if s[0] == x then 0 else 1 + FirstIndex(s[1..], x)
  }

  /**
   * reconnectDebugger as written throws a NullPointerException exactly when
   * it reconnects a launch that is not the last one getLaunches() lists.
   */
  predicate ReconnectThrows(launch: Option<Launch>, s: ManagerState) {
    NeedsReconnect(launch, s) && FirstIndex(s.launches, launch.value) < |s.launches| - 1
  }

  /** A disconnected launch registered before another one: reconnecting it throws. */
  lemma ReconnectThrowsExample()
    ensures var l, other := Launch(1, Some(1)), Launch(2, None);
      ReconnectThrows(Some(l), ManagerState([l, other], map[l := Disconnected], {1}))
  {
    var l, other := Launch(1, Some(1)), Launch(2, None);
    assert [l, other][0] == l;
  }

  // ---------------------------------------------------------------------
  // MCEclipseApplication
  // ---------------------------------------------------------------------

  class MCEclipseApplication {
    const name: string
    const projectType: ProjectType
    const capabilities: ProjectCapabilities

    /** Old-style consoles, None when not showing. */
    var appConsole: Option<Console>
    var buildConsole: Option<Console>
    /** The socket consoles. */
    var activeConsoles: set<SocketConsole>
    /** The debug launch, None when not debugging. */
    var launch: Option<Launch>
    /** connectDebugger jobs scheduled and not yet run. */
    var connectJobs: nat
    /** Every launch a connect job of this application has registered. */
    ghost var started: set<Launch>

    /**
     * Never two launches: of the launches this application started, only the
     * current one may still be registered. Clearing, attaching, reconnecting,
     * disposing and RunConnectJobClearingFirst keep it; RunConnectJob keeps it
     * only when the previous launch is no longer registered, so two connect
     * jobs scheduled before either runs break it (DoubleAttachLeaks).
     */
    ghost predicate Valid(manager: LaunchManager)
      reads this, manager
    {
      manager.Valid() &&
      forall l :: l in started && l in manager.launches ==> launch == Some(l)
    }

    constructor (name: string, projectType: ProjectType, capabilities: ProjectCapabilities)
      ensures this.name == name && this.projectType == projectType && this.capabilities == capabilities
      ensures appConsole.None? && buildConsole.None? && activeConsoles == {}
      ensures launch.None? && connectJobs == 0 && started == {}
    {
      this.name, this.projectType, this.capabilities := name, projectType, capabilities;
      appConsole, buildConsole, activeConsoles := None, None, {};
      launch, connectJobs := None, 0;
      started := {};
    }

    predicate HasAppConsole()
      reads this
    {
      appConsole.Some?
    }

    predicate HasBuildConsole()
      reads this
    {
      buildConsole.Some?
    }

    /** `setAppConsole`: hasAppConsole() now tells whether c was non-null. */
    method SetAppConsole(c: Option<Console>)
      modifies this`appConsole
      ensures appConsole == c
      ensures HasAppConsole() <==> c.Some?
    {
      appConsole := c;
    }

    /** `setBuildConsole`: hasBuildConsole() now tells whether c was non-null. */
    method SetBuildConsole(c: Option<Console>)
      modifies this`buildConsole
      ensures buildConsole == c
      ensures HasBuildConsole() <==> c.Some?
    {
      buildConsole := c;
    }

    /** `addConsole`: set semantics. */
    method AddConsole(c: SocketConsole)
      modifies this`activeConsoles
      ensures activeConsoles == old(activeConsoles) + {c}
    {
      activeConsoles := activeConsoles + {c};
    }

    /** `getConsole`: some active console for that log, in hash order, or None when there is none. */
    method GetConsole(logInfo: LogInfo) returns (c: Option<SocketConsole>)
      ensures c.Some? ==> c.value in activeConsoles && IsThisLogInfo(c.value.logInfo, logInfo)
      ensures c.None? <==> forall s :: s in activeConsoles ==> !IsThisLogInfo(s.logInfo, logInfo)
    {
      var rest := activeConsoles;
      while rest != {}
        invariant rest <= activeConsoles
        invariant forall s :: s in activeConsoles && s !in rest ==> !IsThisLogInfo(s.logInfo, logInfo)
        decreases rest
      {
        var s :| s in rest;
        if IsThisLogInfo(s.logInfo, logInfo) {
          return Some(s);
        }
        rest := rest - {s};
      }
      return None;
    }

    /** `removeConsole`: null changes nothing; otherwise only that console goes. */
    method RemoveConsole(c: Option<SocketConsole>)
      modifies this`activeConsoles
      ensures c.None? ==> activeConsoles == old(activeConsoles)
      ensures c.Some? ==> activeConsoles == old(activeConsoles) - {c.value}
    {
      if c.Some? {
        activeConsoles := activeConsoles - {c.value};
      }
    }

    /** `setLaunch`. */
    method SetLaunch(l: Option<Launch>)
      modifies this`launch
      ensures launch == l
    {
      launch := l;
    }

    /**
     * `clearDebugger`: ends with no launch in every case; a previous launch
     * is torn down as ClearEffect says, and failures are only logged.
     */
    method ClearDebugger(manager: LaunchManager, logger: Logger, disconnectFails: bool, deleteFails: bool)
      requires manager.Valid()
      modifies this`launch, manager, logger
      ensures manager.Valid() && (old(Valid(manager)) ==> Valid(manager))
      ensures launch.None?
      ensures old(launch).None? ==> manager.State() == old(manager.State()) && logger.errors == old(logger.errors)
      ensures old(launch).Some? ==>
        && manager.State() == ClearEffect(old(manager.State()), old(launch).value, disconnectFails, deleteFails)
        && logger.errors == old(logger.errors) + ClearLog(old(manager.State()), old(launch).value, name, disconnectFails, deleteFails)
    {
      if launch.Some? {
        var l := launch.value;
        ghost var s0 := manager.State();
        RemoveFirstDistinct(manager.launches, l);
        if manager.TargetOf(l) == Connected {
          var ok := manager.Disconnect(l, disconnectFails);
          if !ok {
            logger.LogError(DisconnectFailed(name));
          }
        }
        manager.RemoveLaunch(l);
        if l.config.Some? {
          var ok := manager.DeleteConfig(l.config.value, deleteFails);
          if !ok {
            logger.LogError(ConfigDeleteFailed(name));
          }
        }
        assert manager.State() == ClearEffect(s0, l, disconnectFails, deleteFails);
      }
      SetLaunch(None);
    }

    /** `connectDebugger`: schedules a connect job; nothing else changes until it runs. */
    method ConnectDebugger()
      modifies this`connectJobs
      ensures connectJobs == old(connectJobs) + 1
    {
      connectJobs := connectJobs + 1;
    }

    /**
     * A scheduled connect job runs, as written. For a Java project the
     * configuration is saved and launched, and the new launch becomes the
     * application's launch; if the launch throws, the saved configuration
     * stays. The job does not clear a launch the application already holds:
     * that one stays registered beside the new one.
     */
    method RunConnectJob(manager: LaunchManager, outcome: JobOutcome)
      requires manager.Valid() && connectJobs > 0
      requires outcome.Launched? ==> outcome.newLaunch !in manager.launches && outcome.newLaunch !in started
      modifies this`connectJobs, this`launch, this`started, manager
      ensures manager.Valid()
      ensures connectJobs == old(connectJobs) - 1
      ensures outcome.NotLaunched? ==> launch == old(launch) && started == old(started) && manager.State() == old(manager.State())
      ensures outcome.SavedThenFailed? ==>
        && launch == old(launch) && started == old(started)
        && manager.State() == old(manager.State()).(configs := old(manager.configs) + {outcome.config})
      ensures outcome.Launched? ==>
        && launch == Some(outcome.newLaunch) && started == old(started) + {outcome.newLaunch}
        && manager.State() == Register(old(manager.State()), outcome.newLaunch, outcome.target)
      ensures old(Valid(manager)) && (old(launch).None? || old(launch).value !in old(manager.launches)) ==> Valid(manager)
      ensures outcome.Launched? && old(launch).Some? && old(launch).value in old(manager.launches) ==>
        old(launch).value in manager.launches && launch != old(launch)
    {
      connectJobs := connectJobs - 1;
      match outcome {
        case NotLaunched =>
        case SavedThenFailed(c) =>
          manager.SaveConfig(c);
        case Launched(l, target) =>
          manager.AddLaunch(l, target);
          started := started + {l};
          SetLaunch(Some(l));
      }
    }

    /**
     * A connect job that clears the launch the application still holds
     * before setting the new one, so that no launch of this application is
     * left registered behind it.
     */
    method RunConnectJobClearingFirst(manager: LaunchManager, logger: Logger, outcome: JobOutcome,
                                      disconnectFails: bool, deleteFails: bool)
      requires manager.Valid() && connectJobs > 0
      requires outcome.Launched? ==> outcome.newLaunch !in manager.launches && outcome.newLaunch !in started
      modifies this`connectJobs, this`launch, this`started, manager, logger
      ensures manager.Valid() && (old(Valid(manager)) ==> Valid(manager))
      ensures connectJobs == old(connectJobs) - 1
      ensures outcome.NotLaunched? ==> launch == old(launch) && started == old(started) && manager.State() == old(manager.State())
      ensures outcome.SavedThenFailed? ==>
        && launch == old(launch) && started == old(started)
        && manager.State() == old(manager.State()).(configs := old(manager.configs) + {outcome.config})
      ensures outcome.Launched? ==>
        && launch == Some(outcome.newLaunch) && started == old(started) + {outcome.newLaunch}
        && manager.State() == Register(
             if old(launch).Some? then ClearEffect(old(manager.State()), old(launch).value, disconnectFails, deleteFails)
             else old(manager.State()),
             outcome.newLaunch, outcome.target)
      ensures outcome.Launched? && old(launch).Some? && old(launch).value in old(manager.launches) ==>
        old(launch).value !in manager.launches
      ensures !outcome.Launched? || old(launch).None? ==> logger.errors == old(logger.errors)
      ensures outcome.Launched? && old(launch).Some? ==>
        logger.errors == old(logger.errors) + ClearLog(old(manager.State()), old(launch).value, name, disconnectFails, deleteFails)
    {
      connectJobs := connectJobs - 1;
      match outcome {
        case NotLaunched =>
        case SavedThenFailed(c) =>
          manager.SaveConfig(c);
        case Launched(l, target) =>
          if launch.Some? {
            RemoveFirstDistinct(manager.launches, launch.value);
          }
          ClearDebugger(manager, logger, disconnectFails, deleteFails);
          manager.AddLaunch(l, target);
          started := started + {l};
          SetLaunch(Some(l));
      }
    }

    /**
     * `attachDebugger`: nothing happens while the current launch's target is
     * connected; otherwise any launch is cleared first and a connect job is
     * scheduled.
     */
    method AttachDebugger(manager: LaunchManager, logger: Logger, disconnectFails: bool, deleteFails: bool)
      requires manager.Valid()
      modifies this`launch, this`connectJobs, manager, logger
      ensures manager.Valid() && (old(Valid(manager)) ==> Valid(manager))
      ensures old(launch).Some? && old(manager.TargetOf(launch.value)) == Connected ==>
        && launch == old(launch) && connectJobs == old(connectJobs)
        && manager.State() == old(manager.State()) && logger.errors == old(logger.errors)
      ensures old(launch).None? ==>
        && launch.None? && connectJobs == old(connectJobs) + 1
        && manager.State() == old(manager.State()) && logger.errors == old(logger.errors)
      ensures old(launch).Some? && old(manager.TargetOf(launch.value)) != Connected ==>
        && launch.None? && connectJobs == old(connectJobs) + 1
        && manager.State() == ClearEffect(old(manager.State()), old(launch).value, disconnectFails, deleteFails)
        && logger.errors == old(logger.errors) + ClearLog(old(manager.State()), old(launch).value, name, disconnectFails, deleteFails)
    {
      if launch.Some? {
        var target := manager.TargetOf(launch.value);
        if target == Connected {
          return;
        }
        ClearDebugger(manager, logger, disconnectFails, deleteFails);
      }
      ConnectDebugger();
    }

    /**
     * `reconnectDebugger` with the scan over getLaunches() stopping at the
     * current launch: it clears and reconnects only a registered launch
     * whose target is null or disconnected, and otherwise changes nothing.
     */
    method ReconnectDebugger(manager: LaunchManager, logger: Logger, disconnectFails: bool, deleteFails: bool)
      requires manager.Valid()
      modifies this`launch, this`connectJobs, manager, logger
      ensures manager.Valid() && (old(Valid(manager)) ==> Valid(manager))
      ensures !NeedsReconnect(old(launch), old(manager.State())) ==>
        && launch == old(launch) && connectJobs == old(connectJobs)
        && manager.State() == old(manager.State()) && logger.errors == old(logger.errors)
      ensures NeedsReconnect(old(launch), old(manager.State())) ==>
        && launch.None? && connectJobs == old(connectJobs) + 1
        && manager.State() == ClearEffect(old(manager.State()), old(launch).value, disconnectFails, deleteFails)
        && logger.errors == old(logger.errors) + ClearLog(old(manager.State()), old(launch).value, name, disconnectFails, deleteFails)
    {
      if launch.None? {
        return;
      }
      var launches := manager.launches;
      var i := 0;
      while i < |launches|
        invariant i <= |launches|
        invariant launch.value !in launches[..i]
        invariant launch == old(launch) && connectJobs == old(connectJobs)
        invariant manager.State() == old(manager.State()) && logger.errors == old(logger.errors)
      {
        if launch.value == launches[i] {
          var target := manager.TargetOf(launch.value);
          if target == NoTarget || target == Disconnected {
            ClearDebugger(manager, logger, disconnectFails, deleteFails);
            ConnectDebugger();
          }
          return;
        }
        assert launches[..i + 1] == launches[..i] + [launches[i]];
        i := i + 1;
      }
      assert launches[..i] == launches;
    }

    /**
     * `reconnectDebugger` as written: the loop over the getLaunches()
     * snapshot goes on after clearing, and the next `launch.equals(...)` on
     * the now null field throws (`npe`). The state changes are those of
     * ReconnectDebugger.
     */
    method ReconnectDebuggerAsWritten(manager: LaunchManager, logger: Logger, disconnectFails: bool, deleteFails: bool)
      returns (npe: bool)
      requires manager.Valid()
      modifies this`launch, this`connectJobs, manager, logger
      ensures manager.Valid() && (old(Valid(manager)) ==> Valid(manager))
      ensures npe <==> ReconnectThrows(old(launch), old(manager.State()))
      ensures !NeedsReconnect(old(launch), old(manager.State())) ==>
        && launch == old(launch) && connectJobs == old(connectJobs)
        && manager.State() == old(manager.State()) && logger.errors == old(logger.errors)
      ensures NeedsReconnect(old(launch), old(manager.State())) ==>
        && launch.None? && connectJobs == old(connectJobs) + 1
        && manager.State() == ClearEffect(old(manager.State()), old(launch).value, disconnectFails, deleteFails)
        && logger.errors == old(logger.errors) + ClearLog(old(manager.State()), old(launch).value, name, disconnectFails, deleteFails)
    {
      npe := false;
      if launch.None? {
        return;
      }
      ghost var l := launch.value;
      ghost var s0 := manager.State();
      var launches := manager.launches;
      var i := 0;
      while i < |launches|
        invariant i <= |launches|
        invariant launch.Some? ==>
          && launch == old(launch) && connectJobs == old(connectJobs)
          && (l in launches[..i] ==> !NeedsReconnect(old(launch), s0))
          && manager.State() == s0 && logger.errors == old(logger.errors)
        invariant launch.None? ==>
          && 0 < i && NeedsReconnect(old(launch), s0) && FirstIndex(launches, l) == i - 1
          && connectJobs == old(connectJobs) + 1
          && manager.State() == ClearEffect(s0, l, disconnectFails, deleteFails)
          && logger.errors == old(logger.errors) + ClearLog(s0, l, name, disconnectFails, deleteFails)
        invariant manager.Valid() && (old(Valid(manager)) ==> Valid(manager))
      {
        if launch.None? {
          // launch.equals(launchItem) with launch == null
          npe := true;
          return;
        }
        if launch.value == launches[i] {
          var target := manager.TargetOf(launch.value);
          if target == NoTarget || target == Disconnected {
            assert l !in launches[..i];
            ClearDebugger(manager, logger, disconnectFails, deleteFails);
            ConnectDebugger();
          }
        }
        assert launches[..i + 1] == launches[..i] + [launches[i]];
        i := i + 1;
      }
      assert launches[..i] == launches;
    }

    /** `getDebugTarget`: the current launch's target if that launch is registered, null otherwise. */
    method GetDebugTarget(manager: LaunchManager) returns (t: TargetState)
      ensures t == if launch.Some? && launch.value in manager.launches then manager.TargetOf(launch.value) else NoTarget
    {
      if launch.Some? {
        var launches := manager.launches;
        var i := 0;
        while i < |launches|
          invariant i <= |launches|
          invariant launch.value !in launches[..i]
        {
          if launch.value == launches[i] {
            return manager.TargetOf(launch.value);
          }
          assert launches[..i + 1] == launches[..i] + [launches[i]];
          i := i + 1;
        }
        assert launches[..i] == launches;
      }
      return NoTarget;
    }

    /**
     * `canAttachDebugger`. For a Java project: true iff getDebugTarget() is
     * null or disconnected. Otherwise the language's launcher decides
     * (`launcherVerdict`, None when there is no launcher, which means false).
     */
    method CanAttachDebugger(manager: LaunchManager, launcherVerdict: Option<bool>) returns (r: bool)
      ensures projectType.language == Java ==>
        (r <==> !(launch.Some? && launch.value in manager.launches && manager.TargetOf(launch.value) == Connected))
      ensures projectType.language != Java ==> (r <==> launcherVerdict == Some(true))
    {
      if projectType.language == Java {
        var target := GetDebugTarget(manager);
        return target == NoTarget || target == Disconnected;
      }
      if launcherVerdict.Some? {
        return launcherVerdict.value;
      }
      return false;
    }

    /**
     * `dispose`, launch and console part: the launch is cleared, and the
     * consoles handed to the console manager for removal are returned
     * (empty when the manager is not called). The console fields are kept.
     */
    method Dispose(manager: LaunchManager, logger: Logger, disconnectFails: bool, deleteFails: bool)
      returns (removed: set<RemovedConsole>)
      requires manager.Valid()
      modifies this`launch, manager, logger
      ensures manager.Valid() && (old(Valid(manager)) ==> Valid(manager))
      ensures launch.None?
      ensures old(launch).Some? ==>
        && manager.State() == ClearEffect(old(manager.State()), old(launch).value, disconnectFails, deleteFails)
        && logger.errors == old(logger.errors) + ClearLog(old(manager.State()), old(launch).value, name, disconnectFails, deleteFails)
      ensures old(launch).None? ==> manager.State() == old(manager.State()) && logger.errors == old(logger.errors)
      ensures forall c :: Plain(c) in removed <==> appConsole == Some(c) || buildConsole == Some(c)
      ensures forall s :: Socket(s) in removed <==> s in activeConsoles
    {
      ClearDebugger(manager, logger, disconnectFails, deleteFails);
      removed := set s | s in activeConsoles :: Socket(s);
      if appConsole.Some? {
        removed := removed + {Plain(appConsole.value)};
      }
      if buildConsole.Some? {
        removed := removed + {Plain(buildConsole.value)};
      }
    }
  }

  /**
   * attachDebugger twice before the first connect job runs, as written:
   * both calls see no launch and schedule a job; the second job's launch
   * replaces the first one's, which stays registered even after dispose.
   */
  method DoubleAttachLeaks() returns (leaked: Launch, manager: LaunchManager, app: MCEclipseApplication)
    ensures leaked in manager.launches && app.launch.None?
    ensures !app.Valid(manager)
  {
    manager := new LaunchManager();
    var logger := new Logger();
    app := new MCEclipseApplication("app", ProjectType(Liberty, Java), ProjectCapabilities(true, true, true));
    app.AttachDebugger(manager, logger, false, false);
    app.AttachDebugger(manager, logger, false, false);
    leaked := Launch(1, Some(1));
    app.RunConnectJob(manager, Launched(leaked, NoTarget));
    app.RunConnectJob(manager, Launched(Launch(2, Some(2)), Connected));
    var removed := app.Dispose(manager, logger, false, false);
  }

  /** The same sequence with jobs that clear first leaves neither launch registered after dispose. */
  method DoubleAttachClearedFirst() returns (first: Launch, manager: LaunchManager, app: MCEclipseApplication)
    ensures first !in manager.launches && app.launch.None?
    ensures app.Valid(manager)
  {
    manager := new LaunchManager();
    var logger := new Logger();
    app := new MCEclipseApplication("app", ProjectType(Liberty, Java), ProjectCapabilities(true, true, true));
    app.AttachDebugger(manager, logger, false, false);
    app.AttachDebugger(manager, logger, false, false);
    first := Launch(1, Some(1));
    app.RunConnectJobClearingFirst(manager, logger, Launched(first, NoTarget), false, false);
    app.RunConnectJobClearingFirst(manager, logger, Launched(Launch(2, Some(2)), Connected), false, false);
    var removed := app.Dispose(manager, logger, false, false);
  }
}
