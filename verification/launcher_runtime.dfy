/**
 * The runtime protocol of the C++ launcher module that the benchmark
 * launcher generates: pointer resolution (`getPointer` /
 * `checkDevicePointer` over a `DevicePtrInfo`), parameter binding and grid
 * set-up (`sycl_kernel_launch`), and the order of checks, hooks and the
 * submission in the `launch` entry point.
 *
 * The Level Zero memory query is an input (`AllocQuery`), and the pending
 * Python exception is tracked as an explicit `Option<PyError>` that a later
 * error overwrites.
 */
module LauncherRuntime {

  import opened Wrappers
  import opened PyValues
  import opened Sycl
  import opened LauncherSignature
  import opened Text

  /** What `zeMemGetAllocProperties` reports for an address. */
  datatype AllocAnswer = QueryFailed | MemoryType(isDevice: bool)

  type AllocQuery = nat -> AllocAnswer

  /** A `DevicePtrInfo` value together with the exception its computation raised, if any. */
  datatype Resolved = Resolved(devPtr: nat, valid: bool, raised: Option<PyError>)

  /** The effect of `checkDevicePointer` on a pointer `addr` whose validity is `valid`. */
  function Check(addr: nat, valid: bool, query: AllocQuery): (r: Resolved)
    ensures r.devPtr == addr
    ensures addr == 0 || !valid ==> r == Resolved(addr, valid, None)
    ensures addr != 0 && valid ==> (r.valid <==> query(addr) == MemoryType(true))
    ensures valid ==> (r.valid <==> r.raised.None?)
    ensures !r.valid && valid ==> r.raised == Some(if query(addr).QueryFailed? then AllocQueryFailed else NotDeviceMemory)
  {
    if addr == 0 || !valid then Resolved(addr, valid, None)
    else match query(addr)
      case QueryFailed => Resolved(addr, false, Some(AllocQueryFailed))
      case MemoryType(isDevice) =>
        if isDevice then Resolved(addr, true, None)
        else Resolved(addr, false, Some(NotDeviceMemory))
  }

  /**
   * The effect of `getPointer` on an argument: the resolved `DevicePtrInfo`
   * and the exception left pending.
   */
  function ResolvePointer(obj: PyValue, query: AllocQuery): (r: Resolved)
    // `None` is a valid null pointer, with no check
    ensures obj == PyNone ==> r == Resolved(0, true, None)
    // an int is that address, device-checked unless it is null
    ensures obj.PyInt? && !AsVoidPtr(obj.value).1 ==> r == Check(AsVoidPtr(obj.value).0, true, query)
    // an object without `data_ptr`, or whose `data_ptr()` is not an int, is invalid
    ensures obj.PyFloat? || (obj.PyObject? && (obj.dataPtr.None? || !obj.dataPtr.value.PyInt?)) ==>
              r == Resolved(0, false, Some(PointerTypeError))
    // a `data_ptr()` of 0 is a valid null, with no check
    ensures obj == PyObject(Some(PyInt(0))) ==> r == Resolved(0, true, None)
    // a non-null `data_ptr()` that fits a pointer is that address, device-checked
    ensures obj.PyObject? && obj.dataPtr.Some? && obj.dataPtr.value.PyInt? &&
            !AsVoidPtr(obj.dataPtr.value.value).1 && AsVoidPtr(obj.dataPtr.value.value).0 != 0 ==>
              r == Check(AsVoidPtr(obj.dataPtr.value.value).0, true, query)
    // an address that does not fit a pointer leaves a valid null and an `OverflowError`
    ensures (obj.PyInt? && AsVoidPtr(obj.value).1) || (obj.PyObject? && obj.dataPtr.Some? &&
              obj.dataPtr.value.PyInt? && AsVoidPtr(obj.dataPtr.value.value).1) ==>
              r == Resolved(0, true, Some(OverflowError))
    // every invalid pointer has an exception set
    ensures !r.valid ==> r.raised.Some?
    // a valid non-null pointer references device memory
    ensures r.valid && r.devPtr != 0 ==> query(r.devPtr) == MemoryType(true)
  {
    match obj
    case PyInt(v) =>
      var (addr, overflow) := AsVoidPtr(v);
      var c := Check(addr, true, query);
      if overflow then Resolved(c.devPtr, c.valid, Some(OverflowError)) else c
    case PyNone => Resolved(0, true, None)
    case PyObject(Some(PyInt(v))) =>
      var (addr, overflow) := AsVoidPtr(v);
      var raised := if overflow then Some(OverflowError) else None;
      if addr == 0 then Resolved(0, true, raised)
      else Check(addr, true, query)
    case PyObject(Some(_)) => Resolved(0, false, Some(PointerTypeError))
    case _ => Resolved(0, false, Some(PointerTypeError))
  }

  /** `DevicePtrInfo`: the pointer handed to the kernel and whether it may be used. */
  class DevicePtrInfo {
    var devPtr: nat
    var valid: bool

    constructor ()
      ensures devPtr == 0 && valid
    {
      devPtr := 0;
      valid := true;
    }

    /** `checkDevicePointer`: classify the memory and invalidate a pointer the driver rejects. */
    method CheckDevicePointer(query: AllocQuery) returns (raised: Option<PyError>)
      modifies this
      ensures Resolved(devPtr, valid, raised) == Check(old(devPtr), old(valid), query)
    {
      raised := None;
      if devPtr == 0 || !valid {
        return;
      }
      var answer := query(devPtr);
      if answer.QueryFailed? {
        raised := Some(AllocQueryFailed);
        valid := false;
      } else if !answer.isDevice {
        raised := Some(NotDeviceMemory);
        valid := false;
      }
    }

    /** `getPointer`: resolve one pointer-like argument. */
    static method GetPointer(obj: PyValue, query: AllocQuery) returns (info: DevicePtrInfo, raised: Option<PyError>)
      ensures fresh(info)
      ensures Resolved(info.devPtr, info.valid, raised) == ResolvePointer(obj, query)
    {
      info := new DevicePtrInfo();
      raised := None;
      if obj.PyInt? {
        var (addr, overflow) := AsVoidPtr(obj.value);
        info.devPtr := addr;
        if overflow {
          raised := Some(OverflowError);
        }
        var checkRaised := info.CheckDevicePointer(query);
        if checkRaised.Some? {
          raised := checkRaised;
        }
        return;
      }
      if obj.PyNone? {
        return;
      }
      if obj.PyObject? && obj.dataPtr.Some? {
        var ret := obj.dataPtr.value;
        if !ret.PyInt? {
          raised := Some(PointerTypeError);
          info.valid := false;
          return;
        }
        var (addr, overflow) := AsVoidPtr(ret.value);
        info.devPtr := addr;
        if overflow {
          raised := Some(OverflowError);
        }
        if info.devPtr == 0 {
          return;
        }
        raised := info.CheckDevicePointer(query);
        return;
      }
      raised := Some(PointerTypeError);
      info.valid := false;
    }
  }

  /** A value bound to a kernel argument slot. */
  datatype KernelArg = Scalar(value: PyValue) | Pointer(address: nat) | LocalBuffer(bytes: nat)

  /** What one `stream.submit` hands to the device: the work ranges and the bound arguments. */
  datatype Submission = Submission(range: NdRange, args: map<nat, KernelArg>)

  /** The kernel's declared argument count, less the shared-memory slot when there is one (32-bit unsigned). */
  function ExpectedParams(kernelArgs: u32, sharedMemory: i32): (r: u32)
    ensures sharedMemory == 0 ==> r == kernelArgs
    ensures sharedMemory != 0 && kernelArgs > 0 ==> r == kernelArgs - 1
    // the unsigned subtraction wraps when there are no kernel arguments
    ensures sharedMemory != 0 && kernelArgs == 0 ==> r == 0xFFFF_FFFF
  {
    if sharedMemory != 0 then ToU32(kernelArgs - 1) else kernelArgs
  }

  /**
   * The argument slots a successful `sycl_kernel_launch` fills: slot `k`
   * holds the value of parameter `params[k]`, and a nonzero shared-memory
   * size adds a local buffer at slot `|params|`, after every scalar.
   */
  function BoundArgs(params: seq<nat>, vals: seq<KernelArg>, sharedMemory: i32): (m: map<nat, KernelArg>)
    requires forall k :: 0 <= k < |params| ==> params[k] < |vals|
    ensures forall k: nat :: k < |params| ==> k in m && m[k] == vals[params[k]]
    ensures sharedMemory != 0 ==> |params| in m && m[|params|] == LocalBuffer(ToSizeT(sharedMemory))
    ensures forall k: nat :: k in m <==> k < |params| || (sharedMemory != 0 && k == |params|)
  {
    var scalars := BindingsOf(Select(vals, params));
    if sharedMemory != 0 then scalars[|params| := LocalBuffer(ToSizeT(sharedMemory))] else scalars
  }

  /**
   * `sycl_kernel_launch`: `None` when the parameter-count assertion fails
   * (the process aborts), otherwise the submission.
   */
  function KernelLaunchSpec(gridX: u32, gridY: u32, gridZ: u32, numWarps: i32, threadsPerWarp: i32,
                            sharedMemory: i32, kernelArgs: u32, params: seq<nat>, vals: seq<KernelArg>): (r: Option<Submission>)
    requires IsI32(numWarps * threadsPerWarp)
    requires forall k :: 0 <= k < |params| ==> params[k] < |vals|
    ensures r.Some? <==> |params| == ExpectedParams(kernelArgs, sharedMemory)
    ensures r.Some? ==> r.value.range == GridConfig(gridX, gridY, gridZ, numWarps, threadsPerWarp)
    ensures r.Some? ==> r.value.args == BoundArgs(params, vals, sharedMemory)
  {
    if |params| != ExpectedParams(kernelArgs, sharedMemory) then None
    else Some(Submission(GridConfig(gridX, gridY, gridZ, numWarps, threadsPerWarp), BoundArgs(params, vals, sharedMemory)))
  }

  /** `sycl_kernel_launch`, binding the parameters one by one into a command group. */
  method SyclKernelLaunch(gridX: u32, gridY: u32, gridZ: u32, numWarps: i32, threadsPerWarp: i32,
                          sharedMemory: i32, kernelArgs: u32, params: seq<nat>, vals: seq<KernelArg>)
    returns (r: Option<Submission>)
    requires IsI32(numWarps * threadsPerWarp)
    requires forall k :: 0 <= k < |params| ==> params[k] < |vals|
    ensures r == KernelLaunchSpec(gridX, gridY, gridZ, numWarps, threadsPerWarp, sharedMemory, kernelArgs, params, vals)
  {
    var paramValues := Select(vals, params);  // `void *params[]`
    var numParams := |paramValues|;
    var expected: int := kernelArgs;
    var range := GridConfig(gridX, gridY, gridZ, numWarps, threadsPerWarp);
    if sharedMemory != 0 {
      expected := ToU32(kernelArgs - 1);
    }
    if numParams != expected {
      return None;
    }
    var h := new Handler<KernelArg>();
    var idx := 0;
    while idx < numParams
      invariant 0 <= idx <= numParams
      invariant h.args == BindingsOf(paramValues[..idx])
    {
      BindingsOfSnoc(paramValues[..idx], paramValues[idx]);
      assert paramValues[..idx + 1] == paramValues[..idx] + [paramValues[idx]];
      h.SetArg(idx, paramValues[idx]);
      idx := idx + 1;
    }
    assert paramValues[..numParams] == paramValues;
    if sharedMemory != 0 {
      h.SetArg(numParams, LocalBuffer(ToSizeT(sharedMemory)));
    }
    h.ParallelFor(range);
    return Some(Submission(range, h.args));
  }

  // ---------------------------------------------------------------------
  // The `launch` entry point
  // ---------------------------------------------------------------------

  /** A launch hook: absent (`None`), or a callable that returns or raises. */
  datatype Hook = NoHook | Hook(raises: bool)

  /** The kernel handle in the capsule, when the capsule holds one. */
  datatype KernelHandle = KernelHandle(numArgs: u32)

  /** The arguments of one `launch(...)` call, after `PyArg_ParseTuple`. */
  datatype LaunchCall = LaunchCall(
    gridX: i32, gridY: i32, gridZ: i32,
    stream: int,                   // `py_obj_stream`, an int holding the queue address
    kernel: Option<KernelHandle>,  // `None` when the capsule yields a null pointer
    metadataIsTuple: bool,         // whether `kernel_metadata` is a tuple
    numWarps: i32, threadsPerWarp: i32, sharedMemory: i32,
    enterHook: Hook, exitHook: Hook,
    args: seq<PyValue>)            // the dense arguments, `_arg0 .. _argM-1`

  /** What `launch` returns: `None`, `NULL` with or without a pending exception, or an abort by a failed assertion. */
  datatype Outcome = ReturnedNone | ReturnedNull(error: Option<PyError>) | Aborted

  /** The observable steps of a launch, in order. */
  datatype Event = EnterHookCalled | Submitted(submission: Submission) | ExitHookCalled

  /** Pointer resolution over the first `n` dense arguments. */
  datatype ArgResolution = Bound(vals: seq<KernelArg>, pending: Option<PyError>) | Invalid(pending: Option<PyError>)

  /** The pending exception after an operation that may raise. */
  function Raise(pending: Option<PyError>, raised: Option<PyError>): Option<PyError> {
    if raised.Some? then raised else pending
  }

  function ResolveArgs(tags: seq<string>, args: seq<PyValue>, query: AllocQuery, pending: Option<PyError>, n: nat): (r: ArgResolution)
    requires |tags| == |args| && n <= |tags|
    ensures r.Bound? ==> |r.vals| == n
    ensures r.Bound? ==> forall i :: 0 <= i < n ==>
              r.vals[i] == (if IsPointerLike(tags[i]) then Pointer(ResolvePointer(args[i], query).devPtr) else Scalar(args[i]))
    ensures r.Bound? <==> forall i :: 0 <= i < n && IsPointerLike(tags[i]) ==> ResolvePointer(args[i], query).valid
    ensures r.Invalid? ==> r.pending.Some?
    decreases n
  {
    if n == 0 then Bound([], pending)
    else match ResolveArgs(tags, args, query, pending, n - 1)
      case Invalid(p) => Invalid(p)
      case Bound(vals, p) =>
        if IsPointerLike(tags[n - 1]) then
          var res := ResolvePointer(args[n - 1], query);
          if !res.valid then Invalid(Raise(p, res.raised))
          else Bound(vals + [Pointer(res.devPtr)], Raise(p, res.raised))
        else Bound(vals + [Scalar(args[n - 1])], p)
  }

  /** Once an argument is invalid, resolution stops: later arguments change nothing. */
  lemma {:induction false} InvalidPersists(tags: seq<string>, args: seq<PyValue>, query: AllocQuery,
                                           pending: Option<PyError>, n: nat, m: nat, p: Option<PyError>)
    requires |tags| == |args| && n <= m <= |tags|
    requires ResolveArgs(tags, args, query, pending, n) == Invalid(p)
    ensures ResolveArgs(tags, args, query, pending, m) == Invalid(p)
    decreases m - n
  {
    if n < m {
      assert ResolveArgs(tags, args, query, pending, n + 1) == Invalid(p);
      InvalidPersists(tags, args, query, pending, n + 1, m, p);
    }
  }

  /** The plans `make_launcher` produces: every parameter index names a dense argument. */
  predicate PlanFits(plan: LauncherPlan) {
    forall k :: 0 <= k < |plan.params| ==> plan.params[k] < |plan.args|
  }

  /** The exit hook, the final `PyErr_Occurred` check, after a submission. */
  function Finish(call: LaunchCall, pending: Option<PyError>, trace: seq<Event>): (r: (Outcome, seq<Event>))
    // a raising exit hook wins over any pending error
    ensures call.exitHook.Hook? && call.exitHook.raises ==> r.0 == ReturnedNull(Some(HookRaised))
    // `None` is returned exactly when nothing is pending and the hook did not raise
    ensures r.0 == ReturnedNone <==> !(call.exitHook.Hook? && call.exitHook.raises) && pending.None?
    ensures r.0 != Aborted
    // the exit hook is recorded exactly when there is one
    ensures r.1 == trace + [ExitHookCalled] <==> call.exitHook.Hook?
    ensures !call.exitHook.Hook? ==> r.1 == trace
    ensures |trace| <= |r.1| && r.1[..|trace|] == trace
  {
    if call.exitHook.Hook? && call.exitHook.raises then (ReturnedNull(Some(HookRaised)), trace + [ExitHookCalled])
    else
      var trace' := if call.exitHook.Hook? then trace + [ExitHookCalled] else trace;
      if pending.Some? then (ReturnedNull(pending), trace') else (ReturnedNone, trace')
  }

  /** The outcome and event trace of `launch`. */
  function LaunchSpec(plan: LauncherPlan, call: LaunchCall, query: AllocQuery): (r: (Outcome, seq<Event>))
    requires PlanFits(plan)
    requires IsI32(call.numWarps * call.threadsPerWarp)
    // a wrong argument count fails parsing before anything runs
    ensures |call.args| != |plan.args| ==> r == (ReturnedNull(Some(ParseError)), [])
    // once the arguments parse, an enter hook runs first
    ensures |call.args| == |plan.args| && call.metadataIsTuple && call.enterHook.Hook? ==>
              |r.1| > 0 && r.1[0] == EnterHookCalled
    // `launch` returns `None` only after submitting the kernel
    ensures r.0 == ReturnedNone ==> exists k :: 0 <= k < |r.1| && r.1[k].Submitted?
  {
    if |call.args| != |plan.args| then (ReturnedNull(Some(ParseError)), [])
    else if !call.metadataIsTuple then (ReturnedNull(Some(MetadataTypeError)), [])
    else if call.enterHook.Hook? && call.enterHook.raises then (ReturnedNull(Some(HookRaised)), [EnterHookCalled])
    else
      var trace := if call.enterHook.Hook? then [EnterHookCalled] else [];
      var (stream, overflow) := AsVoidPtr(call.stream);
      var pending := if overflow then Some(OverflowError) else None;
      if stream == 0 then (ReturnedNull(pending), trace)
      else if call.kernel.None? then (ReturnedNull(Some(CapsuleError)), trace)
      else match ResolveArgs(plan.args, call.args, query, pending, |plan.args|)
        case Invalid(p) => (ReturnedNull(p), trace)
        case Bound(vals, p) =>
          match KernelLaunchSpec(ToU32(call.gridX), ToU32(call.gridY), ToU32(call.gridZ), call.numWarps,
                                 call.threadsPerWarp, call.sharedMemory, call.kernel.value.numArgs, plan.params, vals)
          case None => (Aborted, trace)
          case Some(sub) =>
            var t := trace + [Submitted(sub)];
            var f := Finish(call, p, t);
            assert f.1[..|t|] == t;
            assert f.1[|trace|] == t[|trace|];
            f
  }

  /**
   * The `getPointer` calls of `launch`, one per pointer-like dense argument
   * in order; the first invalid pointer ends the launch.
   */
  method ResolvePointerArgs(tags: seq<string>, args: seq<PyValue>, query: AllocQuery, pending0: Option<PyError>)
    returns (r: ArgResolution)
    requires |tags| == |args|
    ensures r == ResolveArgs(tags, args, query, pending0, |tags|)
  {
    var pending := pending0;
    var vals: seq<KernelArg> := [];
    var i := 0;
    while i < |tags|
      invariant 0 <= i <= |tags|
      invariant ResolveArgs(tags, args, query, pending0, i) == Bound(vals, pending)
    {
      if IsPointerLike(tags[i]) {
        var info, raised := DevicePtrInfo.GetPointer(args[i], query);
        pending := Raise(pending, raised);
        if !info.valid {
          assert ResolveArgs(tags, args, query, pending0, i + 1) == Invalid(pending);
          InvalidPersists(tags, args, query, pending0, i + 1, |tags|, pending);
          return Invalid(pending);
        }
        vals := vals + [Pointer(info.devPtr)];
      } else {
        vals := vals + [Scalar(args[i])];
      }
      i := i + 1;
    }
    return Bound(vals, pending);
  }

  /** `launch`: early returns, pointer resolution, submission, exit hook, pending-error check. */
  method Launch(plan: LauncherPlan, call: LaunchCall, query: AllocQuery) returns (outcome: Outcome, trace: seq<Event>)
    requires PlanFits(plan)
    requires IsI32(call.numWarps * call.threadsPerWarp)
    ensures (outcome, trace) == LaunchSpec(plan, call, query)
  {
    trace := [];
    if |call.args| != |plan.args| {
      return ReturnedNull(Some(ParseError)), trace;
    }
    if !call.metadataIsTuple {
      return ReturnedNull(Some(MetadataTypeError)), trace;
    }
    if call.enterHook.Hook? {
      trace := [EnterHookCalled];
      if call.enterHook.raises {
        return ReturnedNull(Some(HookRaised)), trace;
      }
    }
    var (stream, overflow) := AsVoidPtr(call.stream);
    var pending: Option<PyError> := if overflow then Some(OverflowError) else None;
    if stream == 0 {
      return ReturnedNull(pending), trace;
    }
    if call.kernel.None? {
      return ReturnedNull(Some(CapsuleError)), trace;
    }
    var resolution := ResolvePointerArgs(plan.args, call.args, query, pending);
    if resolution.Invalid? {
      return ReturnedNull(resolution.pending), trace;
    }
    var vals := resolution.vals;
    pending := resolution.pending;
    var sub := SyclKernelLaunch(ToU32(call.gridX), ToU32(call.gridY), ToU32(call.gridZ), call.numWarps,
                                call.threadsPerWarp, call.sharedMemory, call.kernel.value.numArgs, plan.params, vals);
    if sub.None? {
      return Aborted, trace;
    }
    trace := trace + [Submitted(sub.value)];
    if call.exitHook.Hook? {
      trace := trace + [ExitHookCalled];
      if call.exitHook.raises {
        return ReturnedNull(Some(HookRaised)), trace;
      }
    }
    if pending.Some? {
      return ReturnedNull(pending), trace;
    }
    return ReturnedNone, trace;
  }

  // ---------------------------------------------------------------------
  // Properties of `launch`
  // ---------------------------------------------------------------------

  /**
   * A launch returns `None` only when `kernel_metadata` is a tuple, no hook
   * raised, every pointer argument resolved valid, the parameter counts
   * matched, and no exception is pending; the trace is then the optional
   * enter hook, exactly one submission, and the optional exit hook.
   */
  lemma LaunchSucceeds(plan: LauncherPlan, call: LaunchCall, query: AllocQuery)
    requires PlanFits(plan)
    requires IsI32(call.numWarps * call.threadsPerWarp)
    requires LaunchSpec(plan, call, query).0 == ReturnedNone
    ensures call.metadataIsTuple && |call.args| == |plan.args|
    ensures forall i :: 0 <= i < |plan.args| && IsPointerLike(plan.args[i]) ==> ResolvePointer(call.args[i], query).valid
    ensures !AsVoidPtr(call.stream).1
    ensures exists sub :: LaunchSpec(plan, call, query).1 ==
              (if call.enterHook.Hook? then [EnterHookCalled] else []) + [Submitted(sub)] +
              (if call.exitHook.Hook? then [ExitHookCalled] else [])
  {
    var r := ResolveArgs(plan.args, call.args, query, None, |plan.args|);
    assert r.Bound?;
  }

  /**
   * An invalid pointer argument ends the launch with `NULL` and a pending
   * exception, before anything is submitted and without the exit hook.
   */
  lemma InvalidPointerStopsLaunch(plan: LauncherPlan, call: LaunchCall, query: AllocQuery, i: nat)
    requires PlanFits(plan)
    requires IsI32(call.numWarps * call.threadsPerWarp)
    requires |call.args| == |plan.args| && call.metadataIsTuple
    requires AsVoidPtr(call.stream).0 != 0 && call.kernel.Some?
    requires i < |plan.args| && IsPointerLike(plan.args[i]) && !ResolvePointer(call.args[i], query).valid
    ensures LaunchSpec(plan, call, query).0.ReturnedNull?
    ensures LaunchSpec(plan, call, query).0.error.Some?
    ensures forall e :: e in LaunchSpec(plan, call, query).1 ==> e == EnterHookCalled
  {
  }

  /**
   * A null queue address, or a capsule without a kernel, ends the launch
   * with `NULL` before any argument is read: the stream's `OverflowError`
   * (or nothing) is pending for the first, the capsule's `ValueError` for
   * the second.
   */
  lemma NullHandleStopsLaunch(plan: LauncherPlan, call: LaunchCall, query: AllocQuery)
    requires PlanFits(plan)
    requires IsI32(call.numWarps * call.threadsPerWarp)
    requires |call.args| == |plan.args| && call.metadataIsTuple && !(call.enterHook.Hook? && call.enterHook.raises)
    requires AsVoidPtr(call.stream).0 == 0 || call.kernel.None?
    ensures AsVoidPtr(call.stream).0 == 0 ==>
              LaunchSpec(plan, call, query).0 == ReturnedNull(if AsVoidPtr(call.stream).1 then Some(OverflowError) else None)
    ensures AsVoidPtr(call.stream).0 != 0 ==> LaunchSpec(plan, call, query).0 == ReturnedNull(Some(CapsuleError))
    ensures forall e :: e in LaunchSpec(plan, call, query).1 ==> e == EnterHookCalled
  {
  }

  /**
   * In a submission, slot `k` carries dense argument `params[k]`: the
   * resolved device address for a pointer tag, the Python value otherwise.
   */
  lemma SubmittedArguments(plan: LauncherPlan, call: LaunchCall, query: AllocQuery, sub: Submission, k: nat)
    requires PlanFits(plan)
    requires IsI32(call.numWarps * call.threadsPerWarp)
    requires Submitted(sub) in LaunchSpec(plan, call, query).1
    requires k < |plan.params|
    ensures k in sub.args
    ensures var a := plan.params[k];
            sub.args[k] == if IsPointerLike(plan.args[a]) then Pointer(ResolvePointer(call.args[a], query).devPtr)
                           else Scalar(call.args[a])
    ensures sub.range == GridConfig(ToU32(call.gridX), ToU32(call.gridY), ToU32(call.gridZ), call.numWarps, call.threadsPerWarp)
  {
    var pending := if AsVoidPtr(call.stream).1 then Some(OverflowError) else None;
    SubmissionOrigin(plan, call, query, sub, pending);
  }

  /** A submission in the trace comes from binding the resolved dense arguments. */
  lemma SubmissionOrigin(plan: LauncherPlan, call: LaunchCall, query: AllocQuery, sub: Submission, pending: Option<PyError>)
    requires PlanFits(plan)
    requires IsI32(call.numWarps * call.threadsPerWarp)
    requires Submitted(sub) in LaunchSpec(plan, call, query).1
    requires pending == if AsVoidPtr(call.stream).1 then Some(OverflowError) else None
    ensures |call.args| == |plan.args| && call.kernel.Some?
    ensures ResolveArgs(plan.args, call.args, query, pending, |plan.args|).Bound?
    ensures KernelLaunchSpec(ToU32(call.gridX), ToU32(call.gridY), ToU32(call.gridZ), call.numWarps,
                             call.threadsPerWarp, call.sharedMemory, call.kernel.value.numArgs, plan.params,
                             ResolveArgs(plan.args, call.args, query, pending, |plan.args|).vals) == Some(sub)
  {
    var trace := if call.enterHook.Hook? then [EnterHookCalled] else [];
    assert forall e :: e in trace ==> e == EnterHookCalled;
    assert |call.args| == |plan.args| && call.metadataIsTuple;
    assert !(call.enterHook.Hook? && call.enterHook.raises);
    assert AsVoidPtr(call.stream).0 != 0 && call.kernel.Some?;
    var res := ResolveArgs(plan.args, call.args, query, pending, |plan.args|);
    assert res.Bound?;
    var launched := KernelLaunchSpec(ToU32(call.gridX), ToU32(call.gridY), ToU32(call.gridZ), call.numWarps,
                                     call.threadsPerWarp, call.sharedMemory, call.kernel.value.numArgs, plan.params,
                                     res.vals);
    if launched.Some? {
      var submitted := trace + [Submitted(launched.value)];
      assert LaunchSpec(plan, call, query) == Finish(call, res.pending, submitted);
      FinishKeepsTrace(call, res.pending, submitted);
    }
  }

  /** The closing steps only append the exit-hook event to the trace. */
  lemma FinishKeepsTrace(call: LaunchCall, pending: Option<PyError>, trace: seq<Event>)
    ensures Finish(call, pending, trace).1 in {trace, trace + [ExitHookCalled]}
  {
  }
}
