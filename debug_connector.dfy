/**
 * The JDI attach loop of MicroclimateDebugConnector.connectDebugger: the
 * check of the launch configuration's attributes, the attempt budget, the
 * cancellation check and attach call of every pass, and the mapping of the
 * last recorded exception to what the method returns or throws.
 *
 * The progress monitor and the attaching connector are replaced by a
 * sequence of Polls supplied by the caller: one per pass of the loop, saying
 * whether the monitor reported cancellation and, if not, what attach did.
 */
module MicroclimateDebugConnector {
  import opened JavaLang

  /** The attributes connectDebugger reads from the launch configuration (debugPort defaults to -1). */
  datatype LaunchConfig = LaunchConfig(projectName: Option<string>, host: Option<string>, debugPort: int)

  /** The class of an exception thrown by `connector.attach`. */
  datatype ExceptionKind =
    | IllegalConnectorArguments      // IllegalConnectorArgumentsException
    | InterruptedIO                  // InterruptedIOException, an IOException (for example a socket timeout)
    | OtherIO                        // any other IOException
    | Unchecked                      // anything else

  /** An exception object; `id` tells two throws apart. */
  datatype AttachException = AttachException(kind: ExceptionKind, id: nat)

  /** What `connector.attach` did. */
  datatype AttachResult = Attached(vm: nat) | Failed(exception: AttachException)

  /** One pass of the loop: the monitor was cancelled, or attach was called. */
  datatype Poll = Cancelled | Attach(result: AttachResult)

  /** How the loop ended. */
  datatype LoopEnd = CancelledAt | Connected(vm: nat) | Exhausted(last: Option<AttachException>)

  /** What connectDebugger returns or throws. */
  datatype Outcome =
    | NoTarget                                       // returns null
    | DebugTarget(vm: nat)                           // returns the JDT debug target built on vm
    | ThrowsIllegalArguments(e: AttachException)     // rethrows the IllegalConnectorArgumentsException
    | ThrowsConnectTimeout(e: AttachException)       // CoreException with ERR_VM_CONNECT_TIMEOUT wrapping e
    | ThrowsIO(e: AttachException)                   // rethrows the IOException

  /** The attributes are usable: a project name, a host and a positive debug port. */
  predicate HasRequiredAttributes(config: LaunchConfig) {
    config.projectName.Some? && config.host.Some? && config.debugPort > 0
  }

  /**
   * The number of passes the loop allows: `itr = timeout * 4` where
   * `timeout = preference * 1000`, both in Java int arithmetic, and 2 when
   * that is not positive.
   */
  function Budget(timeoutPreference: int): (itr: int)
    ensures itr >= 1
    ensures Mul32(Mul32(timeoutPreference, 1000), 4) <= 0 ==> itr == 2
    ensures itr == (if Wrap32(timeoutPreference * 4000) <= 0 then 2 else Wrap32(timeoutPreference * 4000))
  {
    MulMulWrap(timeoutPreference);
    var timeout := Mul32(timeoutPreference, 1000);
    var itr := Mul32(timeout, 4);
    if itr <= 0 then 2 else itr
  }

  /**
   * A timeout preference of p seconds gives 4000 * p passes as long as that
   * product fits in an int, and 2 when it is zero or negative.
   */
  lemma BudgetValues(p: int)
    requires -536870 <= p <= 536870
    ensures p <= 0 ==> Budget(p) == 2
    ensures 0 < p ==> Budget(p) == 4000 * p
  {
    MulMulWrap(p);
    assert IsInt32(p * 4000);
  }

  /** A preference of 536871 seconds overflows: 536871 * 4000 wraps to a negative int and only 2 passes are made. */
  lemma BudgetOverflow()
    ensures Budget(536871) == 2
  {
    MulMulWrap(536871);
    var w := Wrap32(536871 * 4000);
    var k :| 536871 * 4000 == w + k * TWO_32;
    assert k == 1;
  }

  /**
   * Specification of the `while (itr-- > 0)` loop over the passes it may
   * make: a cancelled monitor ends it, the first successful attach ends it
   * (`itr = 0; ex = null`), and each failed attach records its exception.
   */
  function RunPolls(polls: seq<Poll>, last: Option<AttachException>): LoopEnd {
    if polls == [] then Exhausted(last)
    else match polls[0]
      case Cancelled => CancelledAt
      case Attach(Attached(vm)) => Connected(vm)
      case Attach(Failed(e)) => RunPolls(polls[1..], Some(e))
  }

  /** The number of attach calls the loop makes on these passes. */
  function AttachCalls(polls: seq<Poll>): nat {
    if polls == [] then 0
    else match polls[0]
      case Cancelled => 0
      case Attach(Attached(_)) => 1
      case Attach(Failed(_)) => 1 + AttachCalls(polls[1..])
  }

  /** The code after the loop: the last recorded exception decides, in the order of the instanceof tests. */
  function Conclude(end: LoopEnd): (r: Outcome)
    ensures r.DebugTarget? <==> end.Connected?
    ensures r.DebugTarget? ==> r.vm == end.vm
    ensures end.CancelledAt? || end == Exhausted(None) ==> r == NoTarget
    ensures r.ThrowsIllegalArguments? || r.ThrowsConnectTimeout? || r.ThrowsIO? ==> end == Exhausted(Some(r.e))
  {
    match end
    case CancelledAt => NoTarget
    case Connected(vm) => DebugTarget(vm)
    case Exhausted(None) => NoTarget
    case Exhausted(Some(e)) =>
      match e.kind
      case IllegalConnectorArguments => ThrowsIllegalArguments(e)
      case InterruptedIO => ThrowsConnectTimeout(e)
      case OtherIO => ThrowsIO(e)
      case Unchecked => NoTarget
  }

  /** The passes the loop may make. */
  function Window(timeoutPreference: int, polls: seq<Poll>): seq<Poll>
    requires Budget(timeoutPreference) <= |polls|
  {
    polls[..Budget(timeoutPreference)]
  }

  /** Specification of connectDebugger. */
  function Connect(config: LaunchConfig, timeoutPreference: int, hasConnector: bool, polls: seq<Poll>): Outcome
    requires Budget(timeoutPreference) <= |polls|
  {
    if !HasRequiredAttributes(config) || !hasConnector then NoTarget
    else Conclude(RunPolls(Window(timeoutPreference, polls), None))
  }

  /**
   * connectDebugger. `hasConnector` says whether an attaching connector was
   * found; `polls[i]` is what the i-th pass of the loop sees; `calls` counts
   * the attach calls made. The retry do-while around the body is not
   * modelled: every path through its body returns or throws.
   */
  method ConnectDebugger(config: LaunchConfig, timeoutPreference: int, hasConnector: bool, polls: seq<Poll>)
    returns (outcome: Outcome, calls: nat)
    requires Budget(timeoutPreference) <= |polls|
    ensures outcome == Connect(config, timeoutPreference, hasConnector, polls)
    ensures calls == if !HasRequiredAttributes(config) || !hasConnector then 0
                     else AttachCalls(Window(timeoutPreference, polls))
  {
    if config.projectName.None? || config.host.None? || config.debugPort <= 0 {
      return NoTarget, 0;
    }
    var timeout := Mul32(timeoutPreference, 1000);
    if !hasConnector {
      return NoTarget, 0;
    }
    var vm: Option<nat> := None;
    var ex: Option<AttachException> := None;
    var itr := Mul32(timeout, 4);
    if itr <= 0 {
      itr := 2;
    }
    ghost var window := Window(timeoutPreference, polls);
    var i := 0;
    calls := 0;
    while itr > 0
      invariant 0 <= itr && i <= |window|
      invariant vm.None? ==> i + itr == |window|
      invariant vm.None? ==> RunPolls(window, None) == RunPolls(window[i..], ex)
      invariant vm.None? ==> AttachCalls(window) == calls + AttachCalls(window[i..])
      invariant vm.Some? ==> itr == 0 && ex.None?
      invariant vm.Some? ==> RunPolls(window, None) == Connected(vm.value) && AttachCalls(window) == calls
    {
      itr := itr - 1;
      assert window[i..][0] == polls[i];
      assert window[i..][1..] == window[i + 1..];
      if polls[i].Cancelled? {
        return NoTarget, calls;
      }
      calls := calls + 1;
      match polls[i].result {
        case Attached(v) =>
          vm := Some(v);
          itr := 0;
          ex := None;
        case Failed(e) =>
          ex := Some(e);
      }
      i := i + 1;
    }
    if vm.None? {
      assert window[i..] == [];
    }
    if ex.Some? && ex.value.kind == IllegalConnectorArguments {
      return ThrowsIllegalArguments(ex.value), calls;
    }
    if ex.Some? && ex.value.kind == InterruptedIO {
      return ThrowsConnectTimeout(ex.value), calls;
    }
    if ex.Some? && ex.value.kind == OtherIO {
      return ThrowsIO(ex.value), calls;
    }
    outcome := if vm.Some? then DebugTarget(vm.value) else NoTarget;
  }

  /** The loop never makes more attach calls than it has passes. */
  lemma {:induction false} AttachCallsBound(polls: seq<Poll>)
    ensures AttachCalls(polls) <= |polls|
  {
    if polls != [] {
      AttachCallsBound(polls[1..]);
    }
  }

  /** Every pass before k failed to attach. */
  predicate FailedBefore(polls: seq<Poll>, k: int) {
    forall j :: 0 <= j < k && j < |polls| ==> polls[j].Attach? && polls[j].result.Failed?
  }

  /** Cancellation at pass k, after k failed attaches, returns null having made exactly k attach calls. */
  lemma {:induction false} CancellationStops(polls: seq<Poll>, last: Option<AttachException>, k: nat)
    requires k < |polls| && polls[k] == Cancelled && FailedBefore(polls, k)
    ensures RunPolls(polls, last) == CancelledAt
    ensures AttachCalls(polls) == k
  {
    if k > 0 {
      CancellationStops(polls[1..], Some(polls[0].result.exception), k - 1);
    }
  }

  /** A successful attach at pass k, after k failures, ends the loop with that VM after exactly k + 1 calls. */
  lemma {:induction false} FirstSuccessEnds(polls: seq<Poll>, last: Option<AttachException>, k: nat)
    requires k < |polls| && polls[k].Attach? && polls[k].result.Attached? && FailedBefore(polls, k)
    ensures RunPolls(polls, last) == Connected(polls[k].result.vm)
    ensures AttachCalls(polls) == k + 1
  {
    if k > 0 {
      FirstSuccessEnds(polls[1..], Some(polls[0].result.exception), k - 1);
    }
  }

  /** When every pass fails, all passes call attach and the exception of the last one is what remains. */
  lemma {:induction false} AllFailed(polls: seq<Poll>, last: Option<AttachException>)
    requires polls != [] && FailedBefore(polls, |polls|)
    ensures RunPolls(polls, last) == Exhausted(Some(polls[|polls| - 1].result.exception))
    ensures AttachCalls(polls) == |polls|
  {
    if |polls| > 1 {
      AllFailed(polls[1..], Some(polls[0].result.exception));
    }
  }

  /** Any exception can decide only the outcome its class calls for; unchecked ones give null. */
  lemma ExceptionPriority(e: AttachException)
    ensures Conclude(Exhausted(Some(e))).ThrowsIllegalArguments? <==> e.kind == IllegalConnectorArguments
    ensures Conclude(Exhausted(Some(e))).ThrowsConnectTimeout? <==> e.kind == InterruptedIO
    ensures Conclude(Exhausted(Some(e))).ThrowsIO? <==> e.kind == OtherIO
    ensures Conclude(Exhausted(Some(e))) == NoTarget <==> e.kind == Unchecked
  {
  }

  /** Missing attributes or a missing connector give null without any attach call. */
  lemma NoAttemptWithoutAttributesOrConnector(config: LaunchConfig, timeoutPreference: int, hasConnector: bool, polls: seq<Poll>)
    requires Budget(timeoutPreference) <= |polls|
    requires config.projectName.None? || config.host.None? || config.debugPort <= 0 || !hasConnector
    ensures Connect(config, timeoutPreference, hasConnector, polls) == NoTarget
  {
  }

  /** A debug target is returned only for a VM that some attach call produced. */
  lemma {:induction false} TargetOnlyFromAttachedVm(polls: seq<Poll>, last: Option<AttachException>, vm: nat)
    requires Conclude(RunPolls(polls, last)) == DebugTarget(vm)
    ensures exists k :: 0 <= k < |polls| && polls[k] == Attach(Attached(vm))
  {
    if polls != [] && polls[0] != Attach(Attached(vm)) {
      TargetOnlyFromAttachedVm(polls[1..], Some(polls[0].result.exception), vm);
      var k :| 0 <= k < |polls[1..]| && polls[1..][k] == Attach(Attached(vm));
      assert polls[k + 1] == Attach(Attached(vm));
    }
  }

  /** The loop makes at most Budget(preference) attach calls. */
  lemma CallsWithinBudget(config: LaunchConfig, timeoutPreference: int, hasConnector: bool, polls: seq<Poll>)
    requires Budget(timeoutPreference) <= |polls|
    ensures AttachCalls(Window(timeoutPreference, polls)) <= Budget(timeoutPreference)
  {
    AttachCallsBound(Window(timeoutPreference, polls));
  }
}
