/**
 * The pybind11 launcher that the XPU backend generates
 * (`generate_launcher`): Triton tags mapped to C types by `ty_to_cpp` and to
 * pybind11 parameter types, the generated `getPointer`, `set_scalar_arg` and
 * `sycl_kernel_launch`, and the `launch` binding that calls them.
 *
 * Signature keys are the positions `0 .. n-1` of the entries. pybind11's
 * conversion of a Python scalar to its C type is a parameter (`Converter`).
 */
module XpuLauncher {

  import opened Wrappers
  import opened Text
  import opened PyValues
  import opened Sycl
  import LauncherRuntime

  datatype LookupError = IndexError | KeyError(key: string)

  /** `sizeof` of the C types `ty_to_cpp` produces (64-bit target). */
  function CSizeOf(c: string): (r: Option<nat>)
    ensures r.Some? ==> r.value in {1, 2, 4, 8}
  {
    if c == "int8_t" then Some(1)
    else if c == "int16_t" then Some(2)
    else if c == "int32_t" || c == "uint32_t" || c == "float" then Some(4)
    else if c == "int64_t" || c == "uint64_t" || c == "double" || c == "void*" then Some(8)
    else None
  }

  /** `ty_to_cpp`: every pointer tag is `void*`, scalars go through a fixed table, anything else is a KeyError. */
  function TyToCpp(ty: string): (r: Result<string, LookupError>)
    ensures |ty| == 0 ==> r == Failure(IndexError)
    ensures |ty| > 0 && ty[0] == '*' ==> r == Success("void*")
    ensures ty == "i1" ==> r == Success("int32_t")
    ensures ty in {"fp16", "bf16", "fp32", "f32"} ==> r == Success("float")
    ensures ty == "fp64" ==> r == Success("double")
    ensures r.Success? ==> CSizeOf(r.value).Some?
  {
    if |ty| == 0 then Failure(IndexError)
    else if ty[0] == '*' then Success("void*")
    else if ty == "i1" then Success("int32_t")
    else if ty == "i8" then Success("int8_t")
    else if ty == "i16" then Success("int16_t")
    else if ty == "i32" then Success("int32_t")
    else if ty == "i64" then Success("int64_t")
    else if ty == "u32" then Success("uint32_t")
    else if ty == "u64" then Success("uint64_t")
    else if ty == "fp16" || ty == "bf16" || ty == "fp32" || ty == "f32" then Success("float")
    else if ty == "fp64" then Success("double")
    else Failure(KeyError(ty))
  }

  /**
   * `_extracted_type_pybind11`: the parameter type of the `launch` binding.
   * Its table is a strict subset of `ty_to_cpp`'s: i8, i16, fp16 and bf16
   * are rejected here although `ty_to_cpp` accepts them.
   */
  function Pybind11Type(ty: string): (r: Result<string, LookupError>)
    ensures |ty| > 0 && ty[0] == '*' ==> r == Success("py::object")
    ensures r.Success? ==> TyToCpp(ty).Success?
    ensures r.Success? && ty[0] != '*' ==> r.value == TyToCpp(ty).value
    ensures ty in {"i8", "i16", "fp16", "bf16"} ==> r.Failure? && TyToCpp(ty).Success?
  {
    if |ty| == 0 then Failure(IndexError)
    else if ty[0] == '*' then Success("py::object")
    else if ty == "i1" || ty == "i32" then Success("int32_t")
    else if ty == "i64" then Success("int64_t")
    else if ty == "u32" then Success("uint32_t")
    else if ty == "u64" then Success("uint64_t")
    else if ty == "fp32" || ty == "f32" then Success("float")
    else if ty == "fp64" then Success("double")
    else Failure(KeyError(ty))
  }

  /** `ty_to_cpp` of every entry, failing at the first failing one. */
  function MapTyToCpp(sig: seq<string>): (r: Result<seq<string>, LookupError>)
    ensures r.Success? <==> forall i :: 0 <= i < |sig| ==> TyToCpp(sig[i]).Success?
    ensures r.Success? ==> |r.value| == |sig| && forall i :: 0 <= i < |sig| ==> r.value[i] == TyToCpp(sig[i]).value
    decreases |sig|
  {
    if |sig| == 0 then Success([])
    else
      var c :- TyToCpp(sig[0]);
      var cs :- MapTyToCpp(sig[1..]);
      assert forall i :: 1 <= i < |sig| ==> sig[i] == sig[1..][i - 1];
      Success([c] + cs)
  }

  /** `_extracted_type_pybind11` of every entry. */
  function MapPybind11(sig: seq<string>): (r: Result<seq<string>, LookupError>)
    ensures r.Success? <==> forall i :: 0 <= i < |sig| ==> Pybind11Type(sig[i]).Success?
    ensures r.Success? ==> |r.value| == |sig| && forall i :: 0 <= i < |sig| ==> r.value[i] == Pybind11Type(sig[i]).value
    decreases |sig|
  {
    if |sig| == 0 then Success([])
    else
      var c :- Pybind11Type(sig[0]);
      var cs :- MapPybind11(sig[1..]);
      assert forall i :: 1 <= i < |sig| ==> sig[i] == sig[1..][i - 1];
      Success([c] + cs)
  }

  /** `[i for i in signature.keys() if i not in constants]`, from position `from` on. */
  function NonConstants(n: nat, constants: set<int>, from: nat): (r: seq<nat>)
    requires from <= n
    ensures forall k :: 0 <= k < |r| ==> from <= r[k] < n && r[k] !in constants
    ensures forall i :: from <= i < n && i !in constants ==> i in r
    ensures forall k, l :: 0 <= k < l < |r| ==> r[k] < r[l]
    decreases n - from
  {
    if from == n then []
    else if from !in constants then [from] + NonConstants(n, constants, from + 1)
    else NonConstants(n, constants, from + 1)
  }

  /** `sizeof(ty_to_cpp(item))` for each bound parameter. */
  function Widths(decls: seq<string>, params: seq<nat>): (r: seq<nat>)
    requires forall k :: 0 <= k < |params| ==> params[k] < |decls| && CSizeOf(decls[params[k]]).Some?
    ensures |r| == |params|
    ensures forall k :: 0 <= k < |params| ==> r[k] == CSizeOf(decls[params[k]]).value
    decreases |params|
  {
    if |params| == 0 then [] else [CSizeOf(decls[params[0]]).value] + Widths(decls, params[1..])
  }

  /** What `generate_launcher` fixes about the generated module. */
  datatype PybindPlan = PybindPlan(
    argDecls: seq<string>,  // `sycl_kernel_launch`'s argument types, one per signature entry
    argTypes: seq<string>,  // the `launch` binding's argument types, one per signature entry
    params: seq<nat>,       // the positions bound as kernel parameters
    widths: seq<nat>)       // the byte width each of them is bound with

  /**
   * `generate_launcher`. `arg_decls` covers every signature entry, constants
   * included, while only the non-constant entries are bound as parameters.
   */
  function GenerateLauncher(constants: set<int>, sig: seq<string>): (r: Result<PybindPlan, LookupError>)
    ensures r.Success? <==> forall i :: 0 <= i < |sig| ==> Pybind11Type(sig[i]).Success?
    ensures r.Success? ==> |r.value.argDecls| == |sig| && |r.value.argTypes| == |sig|
    ensures r.Success? ==> Success(r.value.argDecls) == MapTyToCpp(sig)
    ensures r.Success? ==> Success(r.value.argTypes) == MapPybind11(sig)
    ensures r.Success? ==> forall i :: i in r.value.params <==> 0 <= i < |sig| && i !in constants
    ensures r.Success? ==> forall k, l :: 0 <= k < l < |r.value.params| ==> r.value.params[k] < r.value.params[l]
    ensures r.Success? ==> |r.value.widths| == |r.value.params|
    ensures r.Success? ==> forall k :: 0 <= k < |r.value.widths| ==> r.value.widths[k] in {1, 2, 4, 8}
    ensures r.Success? ==> forall k :: 0 <= k < |r.value.widths| ==>
              r.value.params[k] < |sig| && r.value.widths[k] == CSizeOf(r.value.argDecls[r.value.params[k]]).value
  {
    var decls := MapTyToCpp(sig);
    var types := MapPybind11(sig);
    if decls.Failure? then Failure(decls.error)
    else if types.Failure? then Failure(types.error)
    else
      var params := NonConstants(|sig|, constants, 0);
      var widths := Widths(decls.value, params);
      Success(PybindPlan(decls.value, types.value, params, widths))
  }

  // ---------------------------------------------------------------------
  // The generated runtime
  // ---------------------------------------------------------------------

  /** What a call does to the exception pending before it. */
  datatype ErrorEffect = Keep | Clear | Set(error: PyError)

  function ApplyEffect(pending: Option<PyError>, effect: ErrorEffect): Option<PyError> {
    match effect
    case Keep => pending
    case Clear => None
    case Set(e) => Some(e)
  }

  /**
   * The generated `getPointer` of the pybind11 launcher: the address and
   * what it does to the pending exception. The int branch prints and
   * clears whatever is pending, including its own overflow and an error an
   * earlier argument left; an out-of-range int becomes the all-ones
   * address; an object is not checked against device memory.
   */
  function PybindGetPointer(obj: PyValue): (r: (nat, ErrorEffect))
    ensures r.0 < ADDRESS_MODULUS
    ensures obj.PyInt? ==> r.1 == Clear
    ensures obj.PyInt? && 0 <= obj.value < ADDRESS_MODULUS ==> r.0 == obj.value
    ensures obj.PyInt? && !(0 <= obj.value < ADDRESS_MODULUS) ==> r.0 == ADDRESS_MODULUS - 1
    ensures obj == PyNone ==> r == (0, Keep)
    ensures obj.PyFloat? || obj == PyObject(None) ==> r == (0, Set(PointerTypeError))
    ensures obj.PyObject? && obj.dataPtr.Some? && !obj.dataPtr.value.PyInt? ==> r == (0, Set(PointerTypeError))
    ensures obj.PyObject? && obj.dataPtr.Some? && obj.dataPtr.value.PyInt? ==>
              r.0 == AsVoidPtr(obj.dataPtr.value.value).0 &&
              r.1 == (if AsVoidPtr(obj.dataPtr.value.value).1 then Set(OverflowError) else Keep)
  {
    match obj
    case PyInt(v) => (if 0 <= v < ADDRESS_MODULUS then v else ADDRESS_MODULUS - 1, Clear)
    case PyNone => (0, Keep)
    case PyObject(Some(ret)) =>
      if ret.PyInt? then
        var (addr, overflow) := AsVoidPtr(ret.value);
        (addr, if overflow then Set(OverflowError) else Keep)
      else (0, Set(PointerTypeError))
    case _ => (0, Set(PointerTypeError))
  }

  /** The number of values a scalar of `size` bytes can hold. */
  function WidthModulus(size: nat): (m: nat)
    requires size in {1, 2, 4, 8}
    ensures m > 0
  {
    if size == 1 then 0x100
    else if size == 2 then 0x1_0000
    else if size == 4 then 0x1_0000_0000
    else 0x1_0000_0000_0000_0000
  }

  /** A value bound to a kernel argument slot by the pybind11 launcher. */
  datatype BoundValue = Bits(width: nat, bits: nat) | LocalAccessor(bytes: nat)

  /** What `set_scalar_arg` binds: the first `size` bytes of the value, read as an unsigned integer. */
  function ScalarBinding(size: nat, bits: nat): BoundValue
    requires size in {1, 2, 4, 8}
  {
    Bits(size, bits % WidthModulus(size))
  }

  /**
   * `set_scalar_arg`: binds by byte width; a width other than 1, 2, 4 or 8
   * fails the assertion (reported as `false`, binding nothing).
   */
  method SetScalarArg(h: Handler<BoundValue>, index: nat, size: nat, bits: nat) returns (ok: bool)
    modifies h
    ensures ok <==> size in {1, 2, 4, 8}
    ensures ok ==> h.args == old(h.args)[index := ScalarBinding(size, bits)]
    ensures !ok ==> h.args == old(h.args)
    ensures h.launched == old(h.launched)
  {
    if size == 1 {
      h.SetArg(index, Bits(1, bits % 0x100));
    } else if size == 2 {
      h.SetArg(index, Bits(2, bits % 0x1_0000));
    } else if size == 4 {
      h.SetArg(index, Bits(4, bits % 0x1_0000_0000));
    } else if size == 8 {
      h.SetArg(index, Bits(8, bits % 0x1_0000_0000_0000_0000));
    } else {
      return false;
    }
    return true;
  }

  /**
   * The work decomposition of this launcher: every operand is a C `int`, so
   * the products are `int` products (overflow is undefined and excluded)
   * converted to `size_t`.
   */
  function IntGridConfig(gridX: i32, gridY: i32, gridZ: i32, numWarps: i32, threadsPerWarp: i32): (r: NdRange)
    requires IsI32(gridX * threadsPerWarp) && IsI32(gridX * threadsPerWarp * numWarps)
    requires IsI32(numWarps * threadsPerWarp)
    ensures r.global.d0 == ToSizeT(gridZ) && r.global.d1 == ToSizeT(gridY)
    ensures r.local.d0 == 1 && r.local.d1 == 1
    ensures r.local.d2 == ToSizeT(numWarps * threadsPerWarp)
    ensures r.global.d2 == ToSizeT(gridX * threadsPerWarp * numWarps)
    ensures 0 <= gridX && 0 <= numWarps && 0 <= threadsPerWarp ==> r.global.d2 == gridX * r.local.d2
  {
    GlobalIsGroups(gridX, numWarps, threadsPerWarp);
    NdRange(Range3(ToSizeT(gridZ), ToSizeT(gridY), ToSizeT(gridX * threadsPerWarp * numWarps)),
            Range3(1, 1, ToSizeT(numWarps * threadsPerWarp)))
  }

  /** Without overflow, the global x range is `gridX` work-groups of the local x range. */
  lemma GlobalIsGroups(gridX: int, numWarps: int, threadsPerWarp: int)
    requires IsI32(gridX * threadsPerWarp * numWarps) && IsI32(numWarps * threadsPerWarp)
    ensures 0 <= gridX && 0 <= numWarps && 0 <= threadsPerWarp ==>
              ToSizeT(gridX * threadsPerWarp * numWarps) == gridX * ToSizeT(numWarps * threadsPerWarp)
  {
    if 0 <= gridX && 0 <= numWarps && 0 <= threadsPerWarp {
      var local := numWarps * threadsPerWarp;
      assert gridX * threadsPerWarp * numWarps == gridX * local;
      assert 0 <= local && 0 <= gridX * local;
    }
  }

  datatype PybindSubmission = PybindSubmission(range: NdRange, args: map<nat, BoundValue>)

  predicate ValidWidths(widths: seq<nat>) {
    forall k :: 0 <= k < |widths| ==> widths[k] in {1, 2, 4, 8}
  }

  /** The scalar bindings of the parameters, in slot order. */
  function Bindings(values: seq<nat>, widths: seq<nat>): (r: seq<BoundValue>)
    requires |values| == |widths| && ValidWidths(widths)
    ensures |r| == |values|
    ensures forall k :: 0 <= k < |r| ==> r[k] == ScalarBinding(widths[k], values[k])
    decreases |values|
  {
    if |values| == 0 then []
    else [ScalarBinding(widths[0], values[0])] + Bindings(values[1..], widths[1..])
  }

  /** Grid operands for which no `int` product overflows. */
  predicate GridFits(gridX: i32, numWarps: i32, threadsPerWarp: i32) {
    IsI32(gridX * threadsPerWarp) && IsI32(gridX * threadsPerWarp * numWarps) && IsI32(numWarps * threadsPerWarp)
  }

  /**
   * `sycl_kernel_launch` of the pybind11 launcher: `None` when an assertion
   * fails, otherwise the submission, with slot `k` holding parameter
   * `params[k]` at its width and the shared buffer at slot `|params|`.
   */
  function PybindKernelLaunchSpec(gridX: i32, gridY: i32, gridZ: i32, numWarps: i32, threadsPerWarp: i32,
                                  sharedMemory: i32, kernelArgs: u32, params: seq<nat>, widths: seq<nat>,
                                  vals: seq<nat>): (r: Option<PybindSubmission>)
    requires GridFits(gridX, numWarps, threadsPerWarp)
    requires |widths| == |params| && forall k :: 0 <= k < |params| ==> params[k] < |vals|
    ensures r.Some? <==> |params| == LauncherRuntime.ExpectedParams(kernelArgs, sharedMemory) && ValidWidths(widths)
    ensures r.Some? ==> forall k: nat :: k < |params| ==>
              k in r.value.args && r.value.args[k] == ScalarBinding(widths[k], vals[params[k]])
    ensures r.Some? ==> forall k: nat :: k in r.value.args <==> k < |params| || (sharedMemory != 0 && k == |params|)
    ensures r.Some? && sharedMemory != 0 ==> r.value.args[|params|] == LocalAccessor(ToSizeT(sharedMemory))
    ensures r.Some? ==> r.value.range == IntGridConfig(gridX, gridY, gridZ, numWarps, threadsPerWarp)
  {
    if |params| != LauncherRuntime.ExpectedParams(kernelArgs, sharedMemory) || !ValidWidths(widths) then None
    else
      var scalars := BindingsOf(Bindings(Select(vals, params), widths));
      var args := if sharedMemory != 0 then scalars[|params| := LocalAccessor(ToSizeT(sharedMemory))] else scalars;
      Some(PybindSubmission(IntGridConfig(gridX, gridY, gridZ, numWarps, threadsPerWarp), args))
  }

  /** `sycl_kernel_launch`, binding the parameters one by one with `set_scalar_arg`. */
  method PybindKernelLaunch(gridX: i32, gridY: i32, gridZ: i32, numWarps: i32, threadsPerWarp: i32,
                            sharedMemory: i32, kernelArgs: u32, params: seq<nat>, widths: seq<nat>,
                            vals: seq<nat>) returns (r: Option<PybindSubmission>)
    requires GridFits(gridX, numWarps, threadsPerWarp)
    requires |widths| == |params| && forall k :: 0 <= k < |params| ==> params[k] < |vals|
    ensures r == PybindKernelLaunchSpec(gridX, gridY, gridZ, numWarps, threadsPerWarp, sharedMemory,
                                        kernelArgs, params, widths, vals)
  {
    var paramValues := Select(vals, params);  // `void *params[]`
    var numParams := |paramValues|;
    var expected: int := kernelArgs;
    var range := IntGridConfig(gridX, gridY, gridZ, numWarps, threadsPerWarp);
    if sharedMemory != 0 {
      expected := ToU32(kernelArgs - 1);
    }
    if numParams != expected {
      return None;
    }
    var h := new Handler<BoundValue>();
    var idx := 0;
    while idx < numParams
      invariant 0 <= idx <= numParams
      invariant ValidWidths(widths[..idx])
      invariant h.args == BindingsOf(Bindings(paramValues[..idx], widths[..idx]))
    {
      var ok := SetScalarArg(h, idx, widths[idx], paramValues[idx]);
      if !ok {
        return None;
      }
      TakeSnoc(widths, idx);
      TakeSnoc(paramValues, idx);
      BindingsSnoc(paramValues[..idx], widths[..idx], paramValues[idx], widths[idx]);
      BindingsOfSnoc(Bindings(paramValues[..idx], widths[..idx]), ScalarBinding(widths[idx], paramValues[idx]));
      idx := idx + 1;
    }
    assert widths[..numParams] == widths && paramValues[..numParams] == paramValues;
    if sharedMemory != 0 {
      h.SetArg(numParams, LocalAccessor(ToSizeT(sharedMemory)));
    }
    h.ParallelFor(range);
    return Some(PybindSubmission(range, h.args));
  }

  lemma TakeSnoc<T>(s: seq<T>, i: nat)
    requires i < |s|
    ensures s[..i + 1] == s[..i] + [s[i]]
  {
  }

  lemma BindingsSnoc(values: seq<nat>, widths: seq<nat>, v: nat, w: nat)
    requires |values| == |widths| && ValidWidths(widths) && w in {1, 2, 4, 8}
    ensures ValidWidths(widths + [w])
    ensures Bindings(values + [v], widths + [w]) == Bindings(values, widths) + [ScalarBinding(w, v)]
  {
    assert ValidWidths(widths + [w]);
  }

  // ---------------------------------------------------------------------
  // The `launch` binding
  // ---------------------------------------------------------------------

  /** pybind11's conversion of a Python argument to a C type's bit pattern; `None` when it rejects it. */
  type Converter = (string, PyValue) -> Option<nat>

  /** A call of the `launch` binding. Enter and exit hooks and the compiled kernel are accepted and unused. */
  datatype PybindCall = PybindCall(
    gridX: i32, gridY: i32, gridZ: i32,
    numWarps: i32, threadsPerWarp: i32, sharedMemory: i32,
    kernelArgs: u32,     // the kernel's `num_args`
    args: seq<PyValue>)

  datatype PybindOutcome =
    | Rejected                     // pybind11 found no matching overload: TypeError
    | Aborted                      // an assertion failed
    | Launched(submission: PybindSubmission, pending: Option<PyError>)

  predicate IsPointerTag(ty: string) {
    |ty| > 0 && ty[0] == '*'
  }

  /** Whether pybind11 accepts every scalar argument (`py::object` parameters take anything). */
  predicate Convertible(plan: PybindPlan, sig: seq<string>, convert: Converter, args: seq<PyValue>)
    requires |args| == |sig| == |plan.argDecls|
  {
    forall i :: 0 <= i < |sig| && !IsPointerTag(sig[i]) ==> convert(plan.argDecls[i], args[i]).Some?
  }

  /** The values passed to `sycl_kernel_launch` for the first `n` entries, and the exception pending after them. */
  function ArgValues(plan: PybindPlan, sig: seq<string>, convert: Converter, args: seq<PyValue>, n: nat)
    : (r: (seq<nat>, Option<PyError>))
    requires |args| == |sig| == |plan.argDecls| && n <= |sig|
    requires Convertible(plan, sig, convert, args)
    ensures |r.0| == n
    ensures forall i :: 0 <= i < n ==>
              r.0[i] == if IsPointerTag(sig[i]) then PybindGetPointer(args[i]).0 else convert(plan.argDecls[i], args[i]).value
    decreases n
  {
    if n == 0 then ([], None)
    else
      var (vals, pending) := ArgValues(plan, sig, convert, args, n - 1);
      if IsPointerTag(sig[n - 1]) then
        var (addr, effect) := PybindGetPointer(args[n - 1]);
        (vals + [addr], ApplyEffect(pending, effect))
      else (vals + [convert(plan.argDecls[n - 1], args[n - 1]).value], pending)
  }

  /** The effect of argument `i` on the pending exception: only pointer arguments have one. */
  function ArgEffect(sig: seq<string>, args: seq<PyValue>, i: nat): ErrorEffect
    requires |args| == |sig| && i < |sig|
  {
    if IsPointerTag(sig[i]) then PybindGetPointer(args[i]).1 else Keep
  }

  /**
   * The exception pending after the first `n` arguments is the one the last
   * raising pointer argument set, provided no int pointer argument after it
   * cleared it; nothing is pending when every raising argument was followed
   * by an int pointer argument.
   */
  lemma {:induction false} ArgValuesPending(plan: PybindPlan, sig: seq<string>, convert: Converter,
                                            args: seq<PyValue>, n: nat)
    requires |args| == |sig| == |plan.argDecls| && n <= |sig|
    requires Convertible(plan, sig, convert, args)
    ensures var p := ArgValues(plan, sig, convert, args, n).1;
            p.Some? ==> exists i :: 0 <= i < n && ArgEffect(sig, args, i) == Set(p.value) &&
                                    forall j :: i < j < n ==> ArgEffect(sig, args, j) == Keep
    ensures var p := ArgValues(plan, sig, convert, args, n).1;
            p.None? ==> forall i :: 0 <= i < n && ArgEffect(sig, args, i).Set? ==>
                                    exists j :: i < j < n && ArgEffect(sig, args, j) == Clear
    decreases n
  {
    if n > 0 {
      ArgValuesPending(plan, sig, convert, args, n - 1);
      var p0 := ArgValues(plan, sig, convert, args, n - 1).1;
      var p := ArgValues(plan, sig, convert, args, n).1;
      var e := ArgEffect(sig, args, n - 1);
      assert p == ApplyEffect(p0, e);
      if e.Set? {
        assert ArgEffect(sig, args, n - 1) == Set(p.value);
      } else if e == Clear {
        forall i | 0 <= i < n && ArgEffect(sig, args, i).Set?
          ensures exists j :: i < j < n && ArgEffect(sig, args, j) == Clear
        {
          assert i < n - 1;
          assert ArgEffect(sig, args, n - 1) == Clear;
        }
      } else if p.Some? {
        var i :| 0 <= i < n - 1 && ArgEffect(sig, args, i) == Set(p0.value) &&
                 forall j :: i < j < n - 1 ==> ArgEffect(sig, args, j) == Keep;
        assert forall j :: i < j < n ==> ArgEffect(sig, args, j) == Keep;
      } else {
        forall i | 0 <= i < n && ArgEffect(sig, args, i).Set?
          ensures exists j :: i < j < n && ArgEffect(sig, args, j) == Clear
        {
          assert i < n - 1;
          var j :| i < j < n - 1 && ArgEffect(sig, args, j) == Clear;
        }
      }
    }
  }

  /** The plans `generate_launcher` produces for `sig`. */
  predicate PlanFor(plan: PybindPlan, sig: seq<string>) {
    |plan.argDecls| == |sig| && |plan.widths| == |plan.params| &&
    forall k :: 0 <= k < |plan.params| ==> plan.params[k] < |sig|
  }

  /** The outcome of the `launch` binding. */
  function PybindLaunchSpec(plan: PybindPlan, sig: seq<string>, convert: Converter, call: PybindCall): (r: PybindOutcome)
    requires PlanFor(plan, sig)
    requires GridFits(call.gridX, call.numWarps, call.threadsPerWarp)
    // pybind11 rejects a call of the wrong arity or with an unconvertible scalar
    ensures r.Rejected? <==> |call.args| != |sig| || !Convertible(plan, sig, convert, call.args)
    // the width or parameter-count assertion aborts
    ensures r.Aborted? <==> (&& |call.args| == |sig| && Convertible(plan, sig, convert, call.args)
              && (|plan.params| != LauncherRuntime.ExpectedParams(call.kernelArgs, call.sharedMemory)
                  || !ValidWidths(plan.widths)))
    ensures r.Launched? ==>
              r.submission.range == IntGridConfig(call.gridX, call.gridY, call.gridZ, call.numWarps, call.threadsPerWarp)
  {
    if |call.args| != |sig| || !Convertible(plan, sig, convert, call.args) then Rejected
    else
      var (vals, pending) := ArgValues(plan, sig, convert, call.args, |sig|);
      match PybindKernelLaunchSpec(call.gridX, call.gridY, call.gridZ, call.numWarps, call.threadsPerWarp,
                                   call.sharedMemory, call.kernelArgs, plan.params, plan.widths, vals)
      case None => Aborted
      case Some(sub) => Launched(sub, pending)
  }

  /** The `launch` binding: convert the arguments, resolve the pointers in order, launch. */
  method PybindLaunch(plan: PybindPlan, sig: seq<string>, convert: Converter, call: PybindCall) returns (r: PybindOutcome)
    requires PlanFor(plan, sig)
    requires GridFits(call.gridX, call.numWarps, call.threadsPerWarp)
    ensures r == PybindLaunchSpec(plan, sig, convert, call)
  {
    if |call.args| != |sig| || !Convertible(plan, sig, convert, call.args) {
      return Rejected;
    }
    var vals: seq<nat> := [];
    var pending: Option<PyError> := None;
    var i := 0;
    while i < |sig|
      invariant 0 <= i <= |sig|
      invariant ArgValues(plan, sig, convert, call.args, i) == (vals, pending)
    {
      if IsPointerTag(sig[i]) {
        var (addr, effect) := PybindGetPointer(call.args[i]);
        vals := vals + [addr];
        pending := ApplyEffect(pending, effect);
      } else {
        vals := vals + [convert(plan.argDecls[i], call.args[i]).value];
      }
      i := i + 1;
    }
    var sub := PybindKernelLaunch(call.gridX, call.gridY, call.gridZ, call.numWarps, call.threadsPerWarp,
                                  call.sharedMemory, call.kernelArgs, plan.params, plan.widths, vals);
    if sub.None? {
      return Aborted;
    }
    return Launched(sub.value, pending);
  }

  /**
   * A launcher `generate_launcher` produced never fails the
   * `set_scalar_arg` width assertion: the launch is aborted only by a
   * parameter-count mismatch.
   */
  lemma GeneratedLaunchNeverMisbinds(constants: set<int>, sig: seq<string>, convert: Converter, call: PybindCall)
    requires GenerateLauncher(constants, sig).Success?
    requires GridFits(call.gridX, call.numWarps, call.threadsPerWarp)
    ensures PlanFor(GenerateLauncher(constants, sig).value, sig)
    ensures PybindLaunchSpec(GenerateLauncher(constants, sig).value, sig, convert, call) == Aborted <==>
            |call.args| == |sig| && Convertible(GenerateLauncher(constants, sig).value, sig, convert, call.args) &&
            |GenerateLauncher(constants, sig).value.params| != LauncherRuntime.ExpectedParams(call.kernelArgs, call.sharedMemory)
  {
  }
}
