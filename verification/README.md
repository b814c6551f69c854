# Intel XPU Triton backend — a Dafny model of its launch path and key transforms

This project models, in Dafny, the parts of the Intel XPU backend for Triton
that decide how a compiled kernel is found, described, bound and launched on
a SYCL device, together with two compiler-side pieces and the GEMM benchmark's
tiling:

- **Launcher signature** (`LauncherSignature`): the benchmark launcher's
  `make_launcher`. It maps each signature type to the C type of its `_argN`
  slot, and each C type to a `PyArg_ParseTuple` code. It builds the format
  string `"iiiOOOOOO" + codes`, flattens list types into the dense argument
  list, and picks the launched parameters.
- **Launcher runtime** (`LauncherRuntime`): the generated `launch` entry
  point. It covers the `DevicePtrInfo` pointer checks (`getPointer`,
  `checkDevicePointer`) and `sycl_kernel_launch`, which binds arguments and
  submits the ND-range. It also covers the order of hooks, early returns and
  the final error check.
- **SYCL helpers** (`Sycl`, `PyValues`): 32-bit and `size_t` conversions,
  `gridConfig`, a command-group `Handler` that records `set_arg` and
  `parallel_for`, and `PyLong_AsVoidPtr`.
- **Pybind launcher** (`XpuLauncher`): `ty_to_cpp`, the pybind11 argument
  types, `generate_launcher`, its `getPointer`, `set_scalar_arg` with its
  size switch, `sycl_kernel_launch`, and the `launch` lambda.
- **Backend** (`XpuBackend`): `spirv_get_kernel_name`, `add_stages` over an
  ordered stage dictionary, `add_meta_info`, `get_architecture_descriptor`,
  and the launcher stub cache of `make_launcher_stub`.
- **Reproducer** (`Reproducer`): the SYCL reproducer `wrapper_sycl.cpp`. It
  tokenizes `input.txt` into `argInfo`, walks the `Array` / `Var` / `SM` /
  `GDIM` records, sets up buffers and binds them in a handler, builds the
  ND-range, and compares the output prefix.
- **Block pointers** (`BlockPointer`): `MaterializeBlockPointer`. It decides
  which tensor-pointer loads receive the `block_io` attribute (`row_major` or
  `column_major`), using `getDotLayout`.
- **XMX dot lowering** (`Xmx`): the DPAS engine type, the operand vector
  types, cutting an operand struct into a value table and composing it back,
  and the `k`-loop of DPAS calls in `convertDot`.
- **GEMM benchmark** (`Gemm`): the grouped tile swizzle of both kernels
  (proved a bijection onto the output tiles), `matmul`'s checks and grid,
  `get_shapes`, and the device-memory filter.

Shared text functions (split, join, strip, trim) are in `Text`; `Option` and
`Result` are in `Wrappers`.

Three differences between the two code paths are modelled as written:

- The pybind `getPointer` converts a Python int with
  `PyLong_AsUnsignedLongLong`. An out-of-range int yields the all-ones
  address, and no error is left pending.
- The reproducer's `long` arrays use `int` (4-byte) buffers.
- A float output array in the reproducer reports a fixed host output size
  of 32768 elements, whatever its file size.

## Model

| member | source | states |
|---|---|---|
| LauncherSignature.ExtractedType | benchmarks/triton_kernels_benchmark/benchmark_driver.py:19-28 | pointers and `none` become `PyObject*`; other leaves succeed exactly when `ty_to_cpp` knows them, with that C type; a list becomes a list of the same length |
| LauncherSignature.ExtractedTypes | benchmarks/triton_kernels_benchmark/benchmark_driver.py:26 | a successful list extraction has one C type per element |
| LauncherSignature.CTexts | benchmarks/triton_kernels_benchmark/benchmark_driver.py:26-27 | one text per C type |
| LauncherSignature.ScalarCode | benchmarks/triton_kernels_benchmark/benchmark_driver.py:39-52 | every known C scalar has a one-character `PyArg_ParseTuple` code |
| LauncherSignature.CodeOf | benchmarks/triton_kernels_benchmark/benchmark_driver.py:31-32 | `void*` and the scalar table give one-character codes |
| LauncherSignature.FormatOf | benchmarks/triton_kernels_benchmark/benchmark_driver.py:30-52 | a C name has a code exactly when the table has one; a list's format is parenthesised and `[]` gives `()`; with the parentheses taken out, every format is the codes of the C type's names, in order |
| LauncherSignature.FormatsOf | benchmarks/triton_kernels_benchmark/benchmark_driver.py:36-37 | with the parentheses taken out, the joined formats are the codes of all the elements' names, in order |
| LauncherSignature.RuntimeTags | benchmarks/triton_kernels_benchmark/benchmark_driver.py:54 | an entry is kept iff it is a signature entry other than `constexpr`; the kept entries are no more than the signature's |
| LauncherSignature.RuntimeTagsAppend | benchmarks/triton_kernels_benchmark/benchmark_driver.py:54 | dropping `constexpr` entries works piecewise over concatenation, so the kept entries stay in signature order |
| LauncherSignature.ParseFormat | benchmarks/triton_kernels_benchmark/benchmark_driver.py:54-56 | the format exists iff every leaf of every runtime entry has a code; it starts with `iiiOOOOOO`; with the parentheses taken out it is `iiiOOOOOO` followed by the leaves' codes in signature order |
| LauncherSignature.TagTexts | benchmarks/triton_kernels_benchmark/benchmark_driver.py:57 | one text per type tag |
| LauncherSignature.DenseArgs | benchmarks/triton_kernels_benchmark/benchmark_driver.py:57-59 | the flattened argument list has no empty entry |
| LauncherSignature.ParamsFrom | benchmarks/triton_kernels_benchmark/benchmark_driver.py:168 | the launched parameters are exactly the non-constant, non-`none` positions, in increasing order |
| LauncherSignature.ArgDecls | benchmarks/triton_kernels_benchmark/benchmark_driver.py:64 | declarations succeed exactly when `ty_to_cpp` knows every dense argument, and each declaration is that argument's C type |
| LauncherSignature.MakeLauncher | benchmarks/triton_kernels_benchmark/benchmark_driver.py:17-64 | the plan's format starts with `iiiOOOOOO` and, without parentheses, continues with the runtime leaves' codes in order; its argument list is the flattened runtime tags; each declaration is the argument's C type; its parameters are exactly the launched positions, in increasing order |
| LauncherSignature.RemoveBracketsAround | benchmarks/triton_kernels_benchmark/benchmark_driver.py:57 | removing brackets ignores one enclosing pair |
| LauncherSignature.TagPieces | benchmarks/triton_kernels_benchmark/benchmark_driver.py:57-58 | the text of one tag, bracket-free, split at commas and filtered of empties, is exactly its leaves |
| LauncherSignature.TagsPieces | benchmarks/triton_kernels_benchmark/benchmark_driver.py:57-58 | the same for a list of tags: the pieces are the leaves in order |
| LauncherSignature.DenseArgsAreLeaves | benchmarks/triton_kernels_benchmark/benchmark_driver.py:57-59 | the string-based flattening (join, strip brackets, split, drop empties) equals the structural list of leaves |
| LauncherSignature.LeafCode | benchmarks/triton_kernels_benchmark/benchmark_driver.py:19-52 | a leaf's code, when it has one, is one character |
| LauncherSignature.EntryCodeSupported | benchmarks/triton_kernels_benchmark/benchmark_driver.py:55 | one entry's format succeeds iff every leaf of it is supported, and a supported leaf's code is its leaf code |
| LauncherSignature.ListCodesSupported | benchmarks/triton_kernels_benchmark/benchmark_driver.py:26-27 | a list's types and formats both succeed iff all its elements are supported |
| LauncherSignature.ArgsFormatSupported | benchmarks/triton_kernels_benchmark/benchmark_driver.py:55 | the argument format succeeds iff every signature entry is supported |
| LauncherSignature.AllCodedAppend | benchmarks/triton_kernels_benchmark/benchmark_driver.py:55 | "every leaf has a code" splits over concatenation |
| LauncherSignature.SupportedLeaves | benchmarks/triton_kernels_benchmark/benchmark_driver.py:55-59 | entries are supported iff every leaf of the flattened list has a code |
| LauncherSignature.MakeLauncherSucceeds | benchmarks/triton_kernels_benchmark/benchmark_driver.py:54-64 | `make_launcher` succeeds iff every runtime leaf has a C type and a format code |
| LauncherSignature.FlatArgsFormat | benchmarks/triton_kernels_benchmark/benchmark_driver.py:55 | for a signature without lists, the format has one code per entry, at the entry's position |
| LauncherSignature.FlatParseFormat | benchmarks/triton_kernels_benchmark/benchmark_driver.py:54-56 | for a signature without lists, code `9 + i` of the parse format belongs to runtime argument `i` |
| LauncherSignature.LeafCodesAt | benchmarks/triton_kernels_benchmark/benchmark_driver.py:30-52 | when every leaf has a code, the concatenated codes hold exactly one code per leaf, at the leaf's position |
| LauncherSignature.ExtractedCodes | benchmarks/triton_kernels_benchmark/benchmark_driver.py:19-52 | the codes of the C type `_extracted_type` gives a tag are the codes of the tag's leaves, in order |
| LauncherSignature.ExtractedCodesOf | benchmarks/triton_kernels_benchmark/benchmark_driver.py:25-26 | the same for a list of tags: the element types' codes are the elements' leaves' codes |
| LauncherSignature.ArgsFormatCodes | benchmarks/triton_kernels_benchmark/benchmark_driver.py:55 | the argument format without parentheses is the runtime leaves' codes, in order |
| LauncherSignature.MakeLauncherFormat | benchmarks/triton_kernels_benchmark/benchmark_driver.py:54-60 | for every well-formed signature, list tags included, the format without parentheses is `iiiOOOOOO` plus exactly one code per dense argument `arg{i}`, in order |
| PyValues.AsVoidPtr | benchmarks/triton_kernels_benchmark/benchmark_driver.py:128 | a Python int becomes a 64-bit address: it is kept when already in range; a negative signed-64 value wraps; a value out of both ranges overflows to 0 with an error |
| LauncherRuntime.Check | benchmarks/triton_kernels_benchmark/benchmark_driver.py:101-121 | a null or already-invalid pointer is left alone; otherwise it stays valid iff the allocation query says device memory; a failed query and a host pointer raise distinct errors |
| LauncherRuntime.ResolvePointer | benchmarks/triton_kernels_benchmark/benchmark_driver.py:123-158 | `None` and a zero `data_ptr()` are valid nulls; an int, and a non-zero `data_ptr()` result that fits a pointer, is that address as classified by `checkDevicePointer`; an address too wide for a pointer is a valid null with an `OverflowError`; objects without an int `data_ptr` are invalid with a `TypeError`; every invalid pointer has an error set; every valid non-null pointer is device memory |
| LauncherRuntime.DevicePtrInfo.constructor | benchmarks/triton_kernels_benchmark/benchmark_driver.py:124-126 | a fresh record is a valid null |
| LauncherRuntime.DevicePtrInfo.CheckDevicePointer | benchmarks/triton_kernels_benchmark/benchmark_driver.py:101-121 | updates the record in place exactly as `Check` prescribes |
| LauncherRuntime.DevicePtrInfo.GetPointer | benchmarks/triton_kernels_benchmark/benchmark_driver.py:123-158 | returns a fresh record and raised error equal to `ResolvePointer` |
| LauncherRuntime.ExpectedParams | benchmarks/triton_kernels_benchmark/benchmark_driver.py:170-182 | the kernel's argument count, less one slot when shared memory is used; with shared memory and no arguments the unsigned count wraps to 0xFFFFFFFF |
| LauncherRuntime.BoundArgs | benchmarks/triton_kernels_benchmark/benchmark_driver.py:186-189 | slot `k` holds launched parameter `k`; with shared memory, the slot after them holds the local buffer; no other slot is bound |
| LauncherRuntime.KernelLaunchSpec | benchmarks/triton_kernels_benchmark/benchmark_driver.py:164-196 | the launch is submitted iff the parameter count matches; it then uses `gridConfig`'s range and binds exactly `BoundArgs` |
| LauncherRuntime.SyclKernelLaunch | benchmarks/triton_kernels_benchmark/benchmark_driver.py:164-196 | the handler-based binding loop submits exactly `KernelLaunchSpec` |
| LauncherRuntime.ResolveArgs | benchmarks/triton_kernels_benchmark/benchmark_driver.py:248-249 | all first `n` arguments bind iff every pointer among them resolves valid; pointers bind their device address and scalars their value; an invalid stop carries an error |
| LauncherRuntime.InvalidPersists | benchmarks/triton_kernels_benchmark/benchmark_driver.py:248 | once one pointer is invalid, resolving more arguments keeps the same failure: the launch returns early |
| LauncherRuntime.ResolvePointerArgs | benchmarks/triton_kernels_benchmark/benchmark_driver.py:248 | the loop over the arguments with its early return computes `ResolveArgs` |
| LauncherRuntime.Launch | benchmarks/triton_kernels_benchmark/benchmark_driver.py:198-264 | the imperative entry point produces exactly the outcome and hook and submission trace of the specification, including `NULL` with the capsule's `ValueError` when the capsule holds no kernel |
| LauncherRuntime.LaunchSucceeds | benchmarks/triton_kernels_benchmark/benchmark_driver.py:198-264 | a launch returning `None` had a tuple metadata, matching arity, valid pointers and an in-range stream; its trace is enter hook (if any), one submission, exit hook (if any) |
| LauncherRuntime.InvalidPointerStopsLaunch | benchmarks/triton_kernels_benchmark/benchmark_driver.py:248 | an invalid pointer argument returns `NULL` with an error set, and nothing but the enter hook has happened |
| LauncherRuntime.NullHandleStopsLaunch | benchmarks/triton_kernels_benchmark/benchmark_driver.py:239-244 | a null queue address returns `NULL` with only the stream conversion's overflow error pending; a capsule without a kernel returns `NULL` with the capsule error; nothing but the enter hook has happened |
| LauncherRuntime.SubmittedArguments | benchmarks/triton_kernels_benchmark/benchmark_driver.py:249 | every submitted slot `k` carries launched argument `params[k]` (a device address or the scalar), and the range is `gridConfig` of the grid |
| LauncherRuntime.SubmissionOrigin | benchmarks/triton_kernels_benchmark/benchmark_driver.py:209-249 | a submission only happens after arity, kernel and pointer checks pass, and it is the kernel launch of the resolved arguments |
| LauncherRuntime.FinishKeepsTrace | benchmarks/triton_kernels_benchmark/benchmark_driver.py:251-264 | finishing adds at most the exit hook to the trace |
| LauncherRuntime.Finish | benchmarks/triton_kernels_benchmark/benchmark_driver.py:251-264 | a raising exit hook returns `NULL` with its error, over any pending one; `None` is returned iff no error is pending and the hook did not raise; the exit hook is recorded iff there is one, after the trace so far |
| LauncherRuntime.LaunchSpec | benchmarks/triton_kernels_benchmark/benchmark_driver.py:198-264 | a wrong argument count fails parsing with an empty trace; once the arguments parse, an enter hook is the first event; `None` is returned only after a submission |
| Sycl.ToU32 | benchmarks/triton_kernels_benchmark/benchmark_driver.py:164 | a conversion to `uint32_t` keeps values already in range |
| Sycl.ToSizeT | benchmarks/triton_kernels_benchmark/benchmark_driver.py:171-176 | a conversion to `size_t` is below 2^64 and keeps values in range |
| Sycl.GridConfig | benchmarks/triton_kernels_benchmark/benchmark_driver.py:171-179 | global range `(gridZ, gridY, gridX*tpw*warps)` with the product taken in 32 bits, local range `(1, 1, warps*tpw)` |
| Sycl.ModMul | benchmarks/triton_kernels_benchmark/benchmark_driver.py:171 | reducing factors modulo 2^32 does not change the product modulo 2^32 |
| Sycl.U32ProductWraps | benchmarks/triton_kernels_benchmark/benchmark_driver.py:171 | the step-by-step 32-bit product equals the exact product modulo 2^32 |
| Sycl.GridConfigNoWrap | python/test/triton_reproducer/src/wrapper_sycl.cpp:187-203 | without overflow the global range is `gridX` whole work-groups |
| Sycl.BindingsOf | benchmarks/triton_kernels_benchmark/benchmark_driver.py:186 | slots `0 .. n-1` hold the values in order and nothing else is bound |
| Sycl.BindingsOfSnoc | benchmarks/triton_kernels_benchmark/benchmark_driver.py:186 | binding one more value extends the bindings by that slot |
| Sycl.Handler.constructor | benchmarks/triton_kernels_benchmark/benchmark_driver.py:185 | a new handler has no argument and no launch |
| Sycl.Handler.SetArg | benchmarks/triton_kernels_benchmark/benchmark_driver.py:162 | `set_arg` binds one slot and changes nothing else |
| Sycl.Handler.ParallelFor | benchmarks/triton_kernels_benchmark/benchmark_driver.py:190-192 | `parallel_for` records the range and keeps the bindings |
| XpuLauncher.CSizeOf | python/__init__.py:157-171 | the C types of the table have sizes 1, 2, 4 or 8 |
| XpuLauncher.TyToCpp | python/__init__.py:67-83 | pointers map to `void*`, `i1` to `int32_t`, every float kind to `float` or `double`; an empty type is an index error; each result has a size |
| XpuLauncher.Pybind11Type | python/__init__.py:89-101 | pointers are `py::object`; every other accepted type agrees with `ty_to_cpp`; `i8`, `i16`, `fp16` and `bf16` are rejected although `ty_to_cpp` knows them |
| XpuLauncher.MapTyToCpp | python/__init__.py:87 | the declarations succeed iff every type has a C type, one per type |
| XpuLauncher.MapPybind11 | python/__init__.py:252 | the pybind parameter list succeeds iff every type has a pybind type, one per type |
| XpuLauncher.NonConstants | python/__init__.py:178 | the launched parameters are exactly the non-constant positions, increasing |
| XpuLauncher.Widths | python/__init__.py:222 | each launched parameter's width is the size of its C type |
| XpuLauncher.GenerateLauncher | python/__init__.py:86-263 | generation succeeds iff every type has a pybind type; the declarations are `ty_to_cpp` and the binding types `_extracted_type_pybind11` of every entry, in order; the parameters are the non-constant positions in order; each width is the `sizeof` of its parameter's C type, and so 1, 2, 4 or 8 |
| XpuLauncher.PybindGetPointer | python/__init__.py:125-150 | ints convert as unsigned 64-bit (out of range gives all ones) and clear whatever exception is pending; `None` is null and leaves it; no `data_ptr` or a non-int result sets `TypeError`; a `data_ptr` int converts as `PyLong_AsVoidPtr`, setting `OverflowError` when out of range |
| XpuLauncher.SetScalarArg | python/__init__.py:152-173 | sizes 1, 2, 4 and 8 bind the value at that width; any other size binds nothing and reports the failed assertion |
| XpuLauncher.IntGridConfig | python/__init__.py:182-192 | with `int` grid sizes, global `(gridZ, gridY, gridX*tpw*warps)` and local `(1, 1, warps*tpw)`, both widened to `size_t`; for non-negative inputs the global x size is `gridX` work-groups |
| XpuLauncher.GlobalIsGroups | python/__init__.py:182-186 | the `size_t` global x size is `gridX` times the local x size when nothing overflows `int` |
| XpuLauncher.Bindings | python/__init__.py:222 | slot `k` is bound to value `k` at width `k` |
| XpuLauncher.PybindKernelLaunchSpec | python/__init__.py:175-235 | submitted iff the parameter count matches and all widths are valid; the range is `IntGridConfig` of the grid; slot `k` binds parameter `params[k]` at its width, and the shared-memory slot follows |
| XpuLauncher.PybindKernelLaunch | python/__init__.py:175-235 | the handler loop computes exactly `PybindKernelLaunchSpec` |
| XpuLauncher.BindingsSnoc | python/__init__.py:222 | binding one more parameter appends one binding |
| XpuLauncher.ArgValues | python/__init__.py:256-257 | argument `i` is its `getPointer` address for pointer types and its converted scalar otherwise |
| XpuLauncher.ArgValuesPending | python/__init__.py:125-150 | after the arguments, the pending exception is the one set by the last raising pointer argument with no int pointer argument after it; nothing is pending when every raising argument is followed by an int pointer argument |
| XpuLauncher.PybindLaunch | python/__init__.py:237-258 | the lambda's conversions and launch compute exactly the specified outcome, with the pending exception left by the `getPointer` calls in argument order |
| XpuLauncher.PybindLaunchSpec | python/__init__.py:237-258 | rejected iff the arity is wrong or a scalar does not convert; aborted iff the arguments convert and the parameter count or a width is wrong; a launch uses `IntGridConfig` of the grid |
| XpuLauncher.GeneratedLaunchNeverMisbinds | python/__init__.py:86-258 | a generated launcher aborts iff the call is well-typed but the kernel expects a different number of parameters |
| XpuBackend.DeclOps | python/__init__.py:51-55 | the collected names are exactly the last words of the `OpName` lines |
| XpuBackend.LastWordNoBlanks | python/__init__.py:55 | the name a name line declares is a non-empty word without whitespace |
| XpuBackend.DeclaresSnoc | python/__init__.py:52-55 | the declarations of a text are those of all but its last line plus that line's |
| XpuBackend.DefOps | python/__init__.py:56-62 | fails with an index error iff an `OpEntryPoint` line has no third word; otherwise the names are exactly the entry-point names that are also declared |
| XpuBackend.EntryNameNoBlanks | python/__init__.py:60 | an entry point's name is its third word less the first character, without whitespace |
| XpuBackend.DefinesSnoc | python/__init__.py:57-62 | the definitions of a text are those of all but its last line plus that line's |
| XpuBackend.KernelName | python/__init__.py:45-64 | empty input fails the assertion; a returned name is declared by an `OpName` |
| XpuBackend.KernelNameUnique | python/__init__.py:63-64 | the returned name is an entry point, and it is the only declared entry point |
| XpuBackend.DefOpsNone | python/__init__.py:56-62 | without an entry line whose quoted name is declared, `def_ops` is empty |
| XpuBackend.DefOpsSingle | python/__init__.py:56-62 | with exactly one such line, `def_ops` is that line's name alone |
| XpuBackend.DefOpsTwo | python/__init__.py:56-62 | two such lines put two names in `def_ops` |
| XpuBackend.KernelNameFound | python/__init__.py:45-64 | non-empty text whose entry lines all have a third word and exactly one of which names a declared kernel yields that kernel's name |
| XpuBackend.KernelNameAmbiguous | python/__init__.py:56-63 | two entry lines naming declared kernels, even the same kernel, fail the one-kernel assertion |
| XpuBackend.KernelNameMissing | python/__init__.py:56-63 | with no entry line naming a declared kernel there is no kernel name |
| XpuBackend.OnlyDefinition | python/__init__.py:63 | a one-element definition list names the unique definition |
| XpuBackend.CollectDeclOps | python/__init__.py:51-55 | the first loop computes `DeclOps` |
| XpuBackend.CollectDefOps | python/__init__.py:56-62 | the second loop computes `DefOps` |
| XpuBackend.SpirvGetKernelName | python/__init__.py:45-64 | the method with its two loops and two assertions computes `KernelName` |
| XpuBackend.Keep | python/__init__.py:358-362 | keeps exactly the keys in the set, in order |
| XpuBackend.Drop | python/__init__.py:362-364 | removes exactly the keys in the set, in order |
| XpuBackend.DropTwice | python/__init__.py:363-364 | popping two key sets one after the other equals popping their union |
| XpuBackend.DropComplement | python/__init__.py:358-364 | popping every key outside the kept set leaves exactly the kept keys |
| XpuBackend.KeepNoDuplicates | python/__init__.py:358-362 | filtering a duplicate-free key list keeps it duplicate-free |
| XpuBackend.DropNoDuplicates | python/__init__.py:363-364 | popping keeps a key list duplicate-free |
| XpuBackend.KeepAppend | python/__init__.py:358-362 | filtering distributes over concatenation |
| XpuBackend.KeepKept | python/__init__.py:358-362 | filtering twice is filtering once |
| XpuBackend.AddStagesIdempotent | python/__init__.py:357-369 | applying `add_stages` twice gives the same key order as once |
| XpuBackend.StageTable.constructor | python/__init__.py:357 | a stage dictionary with the given keys and stages |
| XpuBackend.StageTable.Pop | python/__init__.py:364 | `pop` removes the key from the order and the map |
| XpuBackend.StageTable.Put | python/__init__.py:366-369 | assignment updates a present key in place, or appends a new key at the end |
| XpuBackend.StageTable.PopEach | python/__init__.py:363-364 | popping a list of keys drops all of them from the order and the map |
| XpuBackend.StageTable.AddStages | python/__init__.py:357-369 | afterwards the key order is the front-end stages in their old order, then `spirv`, then `spvbin`; front-end stages are unchanged; the two new stages use `arch` and `extern_libs` |
| XpuBackend.StageTable.KeepOnly | python/__init__.py:358-364 | the kept keys are the old keys in the set, and the remaining stages are unchanged |
| XpuBackend.PoppedIsMinus | python/__init__.py:363-364 | popping one key at a time is set difference on the map and `Drop` on the order |
| XpuBackend.MetaDict.constructor | python/__init__.py:371 | a metadata dictionary with the given entries |
| XpuBackend.MetaDict.Put | python/__init__.py:373-375 | assignment updates one entry |
| XpuBackend.AddMetaInfo | python/__init__.py:371-378 | for `spirv`, sets `name` to the kernel name and `shared` only if absent (or fails with no change); for `spvbin`, stores the binary in `asm`; other stages change nothing |
| XpuBackend.FloorDiv | python/__init__.py:415 | Python's `//`: the quotient rounds towards minus infinity for either sign of the divisor |
| XpuBackend.GetArchitectureDescriptor | python/__init__.py:408-422 | no subgroup sizes is an index error; a zero last size is a division by zero; otherwise `threads_per_warp` is the last size and `num_warps` is the largest count of warps that fits the work-group, and it must be below `max_num_subgroup`, or the assertion fails |
| XpuBackend.StubCache.constructor | python/__init__.py:424-427 | an empty cache |
| XpuBackend.StubCache.MakeLauncherStub | python/__init__.py:424-441 | a cached stub is returned without a build; a miss builds once and stores the stub under its key; generation errors leave the cache unchanged; a returned stub is in the cache |
| Text.Split | python/test/triton_reproducer/src/wrapper_sycl.cpp:213-216 | splitting yields at least one piece |
| Text.Select | benchmarks/triton_kernels_benchmark/benchmark_driver.py:168 | the selected values are the values at the given positions, in order |
| Text.NonEmpty | benchmarks/triton_kernels_benchmark/benchmark_driver.py:58 | `filter(bool, ...)` keeps only non-empty pieces |
| Text.RemoveAll | benchmarks/triton_kernels_benchmark/benchmark_driver.py:57 | no removed character is left |
| Text.RemoveAllEach | benchmarks/triton_kernels_benchmark/benchmark_driver.py:57 | one result per input piece |
| Text.NonEmptyAppend | benchmarks/triton_kernels_benchmark/benchmark_driver.py:58 | filtering distributes over concatenation |
| Text.RemoveAllAppend | benchmarks/triton_kernels_benchmark/benchmark_driver.py:57 | removing characters distributes over concatenation |
| Text.RemoveAllNone | benchmarks/triton_kernels_benchmark/benchmark_driver.py:57 | removing characters that do not occur changes nothing |
| Text.RemoveAllJoin | benchmarks/triton_kernels_benchmark/benchmark_driver.py:57 | removing characters from a join (with a separator free of them) is joining the cleaned pieces |
| Text.SplitAppend | python/test/triton_reproducer/src/wrapper_sycl.cpp:213-216 | splitting at a separator splits the two sides independently |
| Text.SplitNoSep | python/test/triton_reproducer/src/wrapper_sycl.cpp:213-216 | text without the separator is one piece |
| Text.JoinSplit | python/test/triton_reproducer/src/wrapper_sycl.cpp:213-216 | joining the pieces of a split gives the text back, and no piece holds the separator |
| Text.SplitJoinPieces | benchmarks/triton_kernels_benchmark/benchmark_driver.py:57-58 | splitting a join and dropping empties gives the non-empty pieces of the parts |
| Text.FirstNotOf | python/test/triton_reproducer/src/wrapper_sycl.cpp:218 | `find_first_not_of`: the first position outside the set, or none when all are in it |
| Text.LastNotOf | python/test/triton_reproducer/src/wrapper_sycl.cpp:219 | `find_last_not_of`: the last position outside the set, or none |
| Text.TrimBlanks | python/test/triton_reproducer/src/wrapper_sycl.cpp:218-221 | an all-blank token is dropped; otherwise the word is the slice of the token obtained by removing only blanks before and after it, and it starts and ends in a non-blank |
| Text.Strip | python/__init__.py:53 | `str.strip()`: no leading or trailing whitespace and no longer than the input |
| Text.StripSlice | python/__init__.py:53 | `str.strip()` is a slice of its input with only whitespace before and after it |
| Text.WordLength | python/__init__.py:55 | the first word runs up to the first whitespace |
| Text.Words | python/__init__.py:55 | `str.split()`: non-empty words without whitespace; text starting with a non-blank has its first word first |
| Text.WordsEmpty | python/__init__.py:55 | `str.split()` is empty iff the text is all whitespace |
| Text.WordsSingle | python/__init__.py:55 | a non-empty text without whitespace splits into itself alone |
| Text.WordsSplitAt | python/__init__.py:55 | a whitespace character splits the words into those before it followed by those after it |
| Text.WordLengthAppend | python/__init__.py:55 | a word ends at the first whitespace character whatever follows it |
| Reproducer.Kept | python/test/triton_reproducer/src/wrapper_sycl.cpp:216-224 | at most one word per comma-separated piece |
| Reproducer.KeptTokens | python/test/triton_reproducer/src/wrapper_sycl.cpp:216-224 | every kept word is a token: non-empty, blank-free at both ends, without commas or newlines |
| Reproducer.TrimmedToken | python/test/triton_reproducer/src/wrapper_sycl.cpp:218-223 | the trimmed word of a comma-free piece is a token |
| Reproducer.FileTokensAreTokens | python/test/triton_reproducer/src/wrapper_sycl.cpp:205-231 | every word read from the file is a token |
| Reproducer.LineWords | python/test/triton_reproducer/src/wrapper_sycl.cpp:216-224 | every word kept from a line without a newline is a token |
| Reproducer.SplitPieceWithin | python/test/triton_reproducer/src/wrapper_sycl.cpp:213-216 | every character of a split piece occurs in the text |
| Reproducer.RecordLines | python/test/triton_reproducer/src/wrapper_sycl.cpp:213-216 | line `i` of a written file is record `i`'s words joined by commas |
| Reproducer.SplitJoin | python/test/triton_reproducer/src/wrapper_sycl.cpp:213-216 | splitting a join of separator-free words gives the words back |
| Reproducer.KeptClean | python/test/triton_reproducer/src/wrapper_sycl.cpp:218-223 | words that are already trimmed tokens are kept unchanged |
| Reproducer.JoinNoSep | python/test/triton_reproducer/src/wrapper_sycl.cpp:213-216 | a comma-join of newline-free words holds no newline |
| Reproducer.ReadWrittenRecords | python/test/triton_reproducer/src/wrapper_sycl.cpp:205-231 | reading back a file of comma-separated lines of clean tokens gives exactly the tokens in order |
| Reproducer.LinesOfRecords | python/test/triton_reproducer/src/wrapper_sycl.cpp:213-227 | the tokens of the record lines are the records flattened |
| Reproducer.LeadingSpaces | python/test/triton_reproducer/src/wrapper_sycl.cpp:237 | `stoi` skips a prefix of the text |
| Reproducer.LeadingDigits | python/test/triton_reproducer/src/wrapper_sycl.cpp:237 | the digit run is a prefix made of digits |
| Reproducer.Stoi | python/test/triton_reproducer/src/wrapper_sycl.cpp:237 | `std::stoi` yields only `int` values; no digits or an out-of-range value is an error |
| Reproducer.DigitChar | python/test/triton_reproducer/src/wrapper_sycl.cpp:237 | a digit value is written as a digit character |
| Reproducer.Decimal | python/test/triton_reproducer/src/wrapper_sycl.cpp:237 | a decimal numeral is non-empty and all digits |
| Reproducer.DecimalValue | python/test/triton_reproducer/src/wrapper_sycl.cpp:237 | a decimal numeral reads back as its number |
| Reproducer.AllDigits | python/test/triton_reproducer/src/wrapper_sycl.cpp:237 | an all-digit text is read to its end |
| Reproducer.StoiShow | python/test/triton_reproducer/src/wrapper_sycl.cpp:237 | `stoi` reads back every `int` written in decimal |
| Reproducer.ElemSize | python/test/triton_reproducer/src/wrapper_sycl.cpp:290-320 | each element type has size 2, 4 or 8 bytes |
| Reproducer.Token | python/test/triton_reproducer/src/wrapper_sycl.cpp:290 | reading `argInfo[i]` succeeds iff `i` is in range, and gives that token |
| Reproducer.Number | python/test/triton_reproducer/src/wrapper_sycl.cpp:331 | a numeric field is present iff the token exists and `stoi` accepts it, with that value |
| Reproducer.SetupSpec | python/test/triton_reproducer/src/wrapper_sycl.cpp:233-259 | a buffer sized by file size over element size is appended; it is copied from the host iff the output flag is 0; an output buffer becomes the device output with that size |
| Reproducer.ArrayRecord | python/test/triton_reproducer/src/wrapper_sycl.cpp:290-321 | a known element type appends one buffer of that type and binds it; an unknown type changes nothing |
| Reproducer.VarRecord | python/test/triton_reproducer/src/wrapper_sycl.cpp:323-335 | `float` binds the text as a float, `int` binds its `stoi` value, and any other kind binds nothing |
| Reproducer.SharedMemoryRecord | python/test/triton_reproducer/src/wrapper_sycl.cpp:337-341 | binds a local accessor of the given size iff the size parses |
| Reproducer.GridOf | python/test/triton_reproducer/src/wrapper_sycl.cpp:343-348 | the five grid fields all parse, with the three grid sizes cast to `uint32_t` |
| Reproducer.GridRecord | python/test/triton_reproducer/src/wrapper_sycl.cpp:343-351 | a `GDIM` record replaces the grid and nothing else |
| Reproducer.RecordOf | python/test/triton_reproducer/src/wrapper_sycl.cpp:290-351 | a record binds at most one argument, keeps earlier bindings, and only `GDIM` changes the grid |
| Reproducer.Step | python/test/triton_reproducer/src/wrapper_sycl.cpp:289-353 | the walk moves 6 tokens after `GDIM` and 4 otherwise, and keeps earlier bindings |
| Reproducer.Walk | python/test/triton_reproducer/src/wrapper_sycl.cpp:289-353 | a finished walk has consumed all tokens and only extended the bindings |
| Reproducer.LaunchRange | python/test/triton_reproducer/src/wrapper_sycl.cpp:187-203 | the ND-range is `gridConfig` of the grid, when the warp fields fit an `int` |
| Reproducer.TritonReproducer.constructor | python/test/triton_reproducer/src/wrapper_sycl.cpp:262 | a reproducer with no arguments, buffers or output |
| Reproducer.TritonReproducer.ReadArguments | python/test/triton_reproducer/src/wrapper_sycl.cpp:205-231 | appends the file's tokens to `argInfo` and changes nothing else |
| Reproducer.TritonReproducer.AppendWords | python/test/triton_reproducer/src/wrapper_sycl.cpp:216-224 | appends the kept words of one line |
| Reproducer.TritonReproducer.SetupBuffers | python/test/triton_reproducer/src/wrapper_sycl.cpp:233-259 | performs exactly `SetupSpec` on the reproducer's state |
| Reproducer.TritonReproducer.Bind | python/test/triton_reproducer/src/wrapper_sycl.cpp:294 | `set_arg(narg++, ...)` binds the next slot |
| Reproducer.TritonReproducer.ArrayStep | python/test/triton_reproducer/src/wrapper_sycl.cpp:290-321 | performs exactly `ArrayRecord` on the state and the handler |
| Reproducer.TritonReproducer.MarkFloatOutput | python/test/triton_reproducer/src/wrapper_sycl.cpp:295-301 | a float output array overrides the output with a 32768-element float buffer |
| Reproducer.TritonReproducer.VarStep | python/test/triton_reproducer/src/wrapper_sycl.cpp:323-335 | performs exactly `VarRecord` |
| Reproducer.TritonReproducer.ApplyRecord | python/test/triton_reproducer/src/wrapper_sycl.cpp:290-351 | performs exactly `RecordOf` |
| Reproducer.TritonReproducer.Record | python/test/triton_reproducer/src/wrapper_sycl.cpp:290-352 | performs exactly `Step` |
| Reproducer.TritonReproducer.Submit | python/test/triton_reproducer/src/wrapper_sycl.cpp:285-356 | submits iff the walk and the range succeed; the launch binds the walk's arguments and uses its grid |
| Reproducer.CountMatching | python/test/triton_reproducer/src/wrapper_sycl.cpp:367-378 | the count is the length of the longest matching prefix, capped at the output size |
| BlockPointer.GetDotLayout | third_party/intel/lib/TritonIntelGPUTransforms/MaterializeBlockPointer.cpp:163-203 | only tensor pointers have a layout; the load's own dot encoding wins; otherwise a dot layout is returned iff all users convert to that same layout, and none when any user is not a conversion |
| BlockPointer.FastChangeDim | third_party/intel/lib/TritonIntelGPUTransforms/MaterializeBlockPointer.cpp:76-88 | the first dimension whose stride is the constant 1, or none |
| BlockPointer.BlockIO | third_party/intel/lib/TritonIntelGPUTransforms/MaterializeBlockPointer.cpp:44-155 | annotated iff eligible, and row major iff the unit stride is the last dimension |
| BlockPointer.SkippedLoads | third_party/intel/lib/TritonIntelGPUTransforms/MaterializeBlockPointer.cpp:48-65 | loads not through a tensor pointer, and rank-1 loads, are never annotated |
| BlockPointer.LowFastDimNotAnnotated | third_party/intel/lib/TritonIntelGPUTransforms/MaterializeBlockPointer.cpp:112 | a unit stride below the last two dimensions gets no annotation |
| BlockPointer.ColumnMajorShape | third_party/intel/lib/TritonIntelGPUTransforms/MaterializeBlockPointer.cpp:107-129 | a column-major annotation means the unit stride is the second-last dimension, the element is not 8 bits, and the last stride is OWord-aligned |
| BlockPointer.OperandAOrientation | third_party/intel/lib/TritonIntelGPUTransforms/MaterializeBlockPointer.cpp:131-150 | an annotated dot operand A is row major iff its values are row major |
| BlockPointer.LoadOp.constructor | third_party/intel/lib/TritonIntelGPUTransforms/MaterializeBlockPointer.cpp:44 | a load starts without the attribute |
| BlockPointer.FindFastChangeDim | third_party/intel/lib/TritonIntelGPUTransforms/MaterializeBlockPointer.cpp:77-83 | the search loop returns `FastChangeDim`, or -1 |
| BlockPointer.FirstUnitStride | third_party/intel/lib/TritonIntelGPUTransforms/MaterializeBlockPointer.cpp:78-82 | a unit stride preceded by none is the fast-changing dimension |
| BlockPointer.Materialize | third_party/intel/lib/TritonIntelGPUTransforms/MaterializeBlockPointer.cpp:44-156 | one load gets `BlockIO`'s layout when eligible, and is otherwise untouched |
| BlockPointer.RunOnOperation | third_party/intel/lib/TritonIntelGPUTransforms/MaterializeBlockPointer.cpp:37-157 | without 2-D block support nothing changes; with it every load is annotated iff eligible |
| Xmx.GetMmaType | lib/Conversion/TritonGPUToSPIRV/DotOpToSPIRV/XMX.cpp:163-187 | each DPAS engine type is chosen iff its accumulator and operand types match (TF32 only when allowed), and an `i32` result has none |
| Xmx.GetMmaOperandsType | lib/Conversion/TritonGPUToSPIRV/DotOpToSPIRV/XMX.cpp:122-161 | only the two fp16 engines are supported; C and D share one vector type of the C shape's per-thread elements; A and B are `i32` vectors holding two elements each |
| Xmx.EntryIndex | lib/Conversion/TritonGPUToSPIRV/DotOpToSPIRV/XMX.cpp:83-91 | entry `(i, j)`'s row-major position is inside the table |
| Xmx.DropLength | lib/Conversion/TritonGPUToSPIRV/DotOpToSPIRV/XMX.cpp:83-91 | after `t` chunks the rest is `t*c` shorter |
| Xmx.DropSuffix | lib/Conversion/TritonGPUToSPIRV/DotOpToSPIRV/XMX.cpp:83-91 | after `t` chunks the rest starts at offset `t*c` |
| Xmx.ChunkAt | lib/Conversion/TritonGPUToSPIRV/DotOpToSPIRV/XMX.cpp:83-91 | chunk `t` is the slice `[t*c, t*c+c)` |
| Xmx.ChunksExist | lib/Conversion/TritonGPUToSPIRV/DotOpToSPIRV/XMX.cpp:83-91 | all `n` chunks fit when `n*c` elements are there |
| Xmx.DotOperandTable | lib/Conversion/TritonGPUToSPIRV/DotOpToSPIRV/XMX.cpp:70-93 | the table holds exactly the `n0 x n1` entries, entry `(i, j)` being chunk `i*n1+j` of the elements |
| Xmx.FillChunk | lib/Conversion/TritonGPUToSPIRV/DotOpToSPIRV/XMX.cpp:85-88 | the inner loop copies the `c` elements at the offset |
| Xmx.Compose | lib/Conversion/TritonGPUToSPIRV/DotOpToSPIRV/XMX.cpp:95-120 | a missing entry fails; otherwise the result is the entries flattened row by row, and an empty result fails the assertion |
| Xmx.DropStep | lib/Conversion/TritonGPUToSPIRV/DotOpToSPIRV/XMX.cpp:83-91 | the rest after `t` chunks is chunk `t` followed by the rest after `t+1` |
| Xmx.RowOfChunks | lib/Conversion/TritonGPUToSPIRV/DotOpToSPIRV/XMX.cpp:100-110 | a row of a chunked table is the next run of the elements |
| Xmx.RowsOfChunks | lib/Conversion/TritonGPUToSPIRV/DotOpToSPIRV/XMX.cpp:100-110 | the first `m` rows are the elements' prefix before chunk `m*n1` |
| Xmx.ComposeChunks | lib/Conversion/TritonGPUToSPIRV/DotOpToSPIRV/XMX.cpp:70-120 | composing a chunked table gives back the elements, up to the unused remainder |
| Xmx.LoadC | lib/Conversion/TritonGPUToSPIRV/DotOpToSPIRV/XMX.cpp:16-68 | only an Intel DPAS layout is accepted, and its lowered struct is used unchanged |
| Xmx.Round | lib/Conversion/TritonGPUToSPIRV/DotOpToSPIRV/XMX.cpp:279-300 | one `k` round keeps the set of accumulator entries |
| Xmx.FeedsFewer | lib/Conversion/TritonGPUToSPIRV/DotOpToSPIRV/XMX.cpp:297-300 | operands present for `k'` rounds are present for fewer |
| Xmx.RoundFed | lib/Conversion/TritonGPUToSPIRV/DotOpToSPIRV/XMX.cpp:279-300 | round `k` finds its A and B entries for every accumulator entry |
| Xmx.Accumulated | lib/Conversion/TritonGPUToSPIRV/DotOpToSPIRV/XMX.cpp:297-300 | the accumulator after `k` rounds has the same entries |
| Xmx.AccumulatedStep | lib/Conversion/TritonGPUToSPIRV/DotOpToSPIRV/XMX.cpp:297-300 | `k + 1` rounds are one more round after `k` |
| Xmx.DpasRound | lib/Conversion/TritonGPUToSPIRV/DotOpToSPIRV/XMX.cpp:279-300 | the `(m, n)` loops of one round call DPAS on every entry and compute `Round` |
| Xmx.Accumulate | lib/Conversion/TritonGPUToSPIRV/DotOpToSPIRV/XMX.cpp:297-300 | the `k` loop computes `Accumulated` over `repK` rounds |
| Xmx.SameSpan | lib/Conversion/TritonGPUToSPIRV/DotOpToSPIRV/XMX.cpp:297-300 | a table with the same entries spans the same grid |
| Xmx.ChunkedSpans | lib/Conversion/TritonGPUToSPIRV/DotOpToSPIRV/XMX.cpp:242-247 | a chunked operand table spans its whole grid |
| Xmx.SpansFeed | lib/Conversion/TritonGPUToSPIRV/DotOpToSPIRV/XMX.cpp:242-300 | tables spanning `repM x repK`, `repN x repK` and `repM x repN` feed every round |
| Xmx.ConvertDot | lib/Conversion/TritonGPUToSPIRV/DotOpToSPIRV/XMX.cpp:189-315 | mismatched `K` repetitions and unsupported engines fail; a result is the accumulated `repM x repN` table after `repK` DPAS rounds, built from the chunked A, B and C tables, composed row by row; with matching repetitions and a supported engine the only failure is an empty result, and with a DPAS that yields non-empty vectors the conversion succeeds |
| Xmx.AccumulatedNonEmpty | lib/Conversion/TritonGPUToSPIRV/DotOpToSPIRV/XMX.cpp:280-315 | after at least one round with a DPAS yielding non-empty vectors, the accumulated table is complete and its composition is non-empty |
| Gemm.CDiv | benchmarks/triton_kernels_benchmark/gemm_tensor_of_ptr_benchmark.py:59-60 | `cdiv` is the least multiple count covering `x` |
| Gemm.GroupBounds | benchmarks/triton_kernels_benchmark/gemm_tensor_of_ptr_benchmark.py:61-64 | a launched program's group starts inside the grid and its offset fits that group |
| Gemm.Swizzle | benchmarks/triton_kernels_benchmark/gemm_tensor_of_ptr_benchmark.py:58-66 | every launched program computes a tile inside the tile grid |
| Gemm.UnswizzleSwizzle | benchmarks/triton_kernels_benchmark/gemm_tensor_of_ptr_benchmark.py:58-66 | the swizzle has a left inverse |
| Gemm.UnswizzleInGroup | benchmarks/triton_kernels_benchmark/gemm_tensor_of_ptr_benchmark.py:61-64 | a tile lies within its group's rows, and its in-group offset is below the group's size |
| Gemm.UnswizzleInGrid | benchmarks/triton_kernels_benchmark/gemm_tensor_of_ptr_benchmark.py:58-66 | every tile's program id is a launched one |
| Gemm.SwizzleUnswizzle | benchmarks/triton_kernels_benchmark/gemm_tensor_of_ptr_benchmark.py:58-66 | every tile is computed by some launched program: the swizzle is onto |
| Gemm.SwizzleInjective | benchmarks/triton_kernels_benchmark/gemm_tensor_of_ptr_benchmark.py:58-66 | no two launched programs compute the same tile |
| Gemm.TileStartsInside | benchmarks/triton_kernels_benchmark/gemm_tensor_of_ptr_benchmark.py:68 | a tile index below `cdiv(x, d)` starts inside the matrix |
| Gemm.TileOf | benchmarks/triton_kernels_benchmark/gemm_tensor_of_ptr_benchmark.py:58-68 | each program's tile starts inside `C` |
| Gemm.TileCovered | benchmarks/triton_kernels_benchmark/gemm_tensor_of_ptr_benchmark.py:58-66 | every tile of `C` is computed by a launched program |
| Gemm.TileOfInjective | benchmarks/triton_kernels_benchmark/gemm_tensor_of_ptr_benchmark.py:58-66 | distinct programs compute distinct tiles |
| Gemm.BatchedTileOf | benchmarks/triton_kernels_benchmark/gemm_tensor_of_ptr_benchmark.py:134-143 | a batched program works on an existing batch and a tile inside `C` |
| Gemm.BatchedTileCovered | benchmarks/triton_kernels_benchmark/gemm_tensor_of_ptr_benchmark.py:134-143 | every (batch, tile) pair is computed by some launched program |
| Gemm.BatchedTileOfInjective | benchmarks/triton_kernels_benchmark/gemm_tensor_of_ptr_benchmark.py:134-143 | distinct (program, batch) pairs compute distinct (batch, tile) pairs |
| Gemm.Grid | benchmarks/triton_kernels_benchmark/gemm_tensor_of_ptr_benchmark.py:191-202 | the 2-D kernel gets one grid dimension of all tiles; the batched kernel adds `B` |
| Gemm.Matmul | benchmarks/triton_kernels_benchmark/gemm_tensor_of_ptr_benchmark.py:173-211 | `matmul` launches iff the K dimensions agree, both inputs are contiguous, and both are 2-D or both 3-D with equal batch; `M`, `N`, `K` follow the transpose flags |
| Gemm.GetShapes | benchmarks/triton_kernels_benchmark/gemm_tensor_of_ptr_benchmark.py:214-226 | the shapes are 3-D with batch `B` when `B != 1`, and 2-D otherwise |
| Gemm.MatmulOfShapes | benchmarks/triton_kernels_benchmark/gemm_tensor_of_ptr_benchmark.py:214-226 | `matmul` accepts `get_shapes`' shapes with the same flags and recovers `B`, `M`, `N`, `K` |
| Gemm.RequiredMemoryVolumes | benchmarks/triton_kernels_benchmark/gemm_tensor_of_ptr_benchmark.py:264 | the required bytes are two bf16 operands and two fp32 results |
| Gemm.EnoughMemoryMonotone | benchmarks/triton_kernels_benchmark/gemm_tensor_of_ptr_benchmark.py:256-267 | a case no larger in every dimension than a fitting case also fits |
| Gemm.FilterCases | benchmarks/triton_kernels_benchmark/gemm_tensor_of_ptr_benchmark.py:270 | the filtered cases are exactly the input cases that fit; when all fit the input is returned unchanged; one case is kept iff it fits |
| Gemm.FilterCasesAppend | benchmarks/triton_kernels_benchmark/gemm_tensor_of_ptr_benchmark.py:270 | filtering works piecewise over concatenation, so the kept cases keep their order |
| Gemm.Benchmarked | benchmarks/triton_kernels_benchmark/gemm_tensor_of_ptr_benchmark.py:229-270 | the benchmarked cases are exactly the declared cases that fit the device memory, all declared cases when all fit, and in declaration order |

## Left out

- Process, build and file I/O: compiling the generated launcher source, the cache manager's directories, writing and reading `main.c`, and reading `input.txt` and `.bin` files. File contents enter as a string, and data files as a map from file name to byte size.
- Level Zero and SYCL runtime calls are parameters. The allocation-properties query is a function from address to answer; kernel creation, queue submission, device-to-host copies and profiling records are not modelled.
- `ty_to_cpp` as imported by the benchmark launcher is not part of this model. `make_launcher` takes it as a parameter.
- `parse_list_string`: list types are a tree datatype, so nested lists parse by construction. The string-based flattening is proved equal to the tree's leaves.
- `PyArg_ParseTuple` is modelled only as the arity check of the dense argument list. Argument conversion by format code is not modelled.
- Kernel metadata attributes (`num_ctas`, cluster dimensions) are not modelled, because they are read but never used. The metadata tuple check is a boolean input.
- LauncherRuntime.Launch: a `data_ptr` call that raises is treated like a missing `data_ptr`.
- XpuLauncher.ArgValues: C++ leaves the evaluation order of `sycl_kernel_launch`'s arguments unspecified; the model calls `getPointer` left to right, and the pending exception after the call follows from that order.
- Sycl.GridConfig: `num_warps * threads_per_warp` is a signed `int` product whose overflow is undefined behaviour, so it is a precondition, and `LauncherRuntime.LaunchSpec` and `LauncherRuntime.Launch` carry it too.
- XpuLauncher.IntGridConfig: the three `int` products of the pybind11 launcher's `sycl_kernel_launch` are undefined on overflow, so `GridFits` is a precondition of it and of `PybindKernelLaunchSpec`, `PybindKernelLaunch`, `PybindLaunchSpec` and `PybindLaunch`.
- Reproducer.LaunchRange: an `int` overflow of the warp product in `gridConfig` is undefined behaviour in C++; the model reports it as an explicit `GridOverflow` failure instead.
- Text.IsPyWhitespace: Python's `str.strip` and `str.split` also treat non-ASCII whitespace (such as U+0085 and U+00A0) as whitespace; the model recognises only whitespace below U+0080. `Text.IsWordChar` likewise recognises only ASCII letters, digits and `_` for the `\b` word boundary.
- The pybind11 conversion of Python scalars to C types is a parameter (`Converter`). Its failure becomes the lambda's abort.
- Signature dictionaries are modelled as sequences indexed by position. The keys are always `0 .. n-1` in both launchers.
- `make_so_cache_key` and `version_key` hashing: the cache key is the signature, the constants and the library name.
- Stage functions are opaque `Stage` values. `ttgir_to_spirv` and `spirv_to_spvbin` are not executed.
- Torch device properties are parameters of `GetArchitectureDescriptor`.
- `stof` and float comparison: float arguments are kept as text, and the output comparison works on any element type with equality.
- Reproducer: device buffers are indices into a buffer list, with no contents. The `boost` type-name lookup is modelled by the names it yields with the usual Linux ABI: `float`, the SYCL half type and `long` (for `int64_t`) set an output type, and the other element types leave it unchanged. The `-spv` command-line option and help text are not modelled.
- Reproducer: C++'s unchecked `argInfo[i]` read past the end becomes an explicit `OutOfRange` failure, and an exception from `stoi` becomes `InvalidNumber`.
- BlockPointer: MLIR analyses (`isDivisible`, `isConstant`, thread order, encodings) are fields of each load. The module walk is a sequence of distinct load operations. A null `getRankedTensorType` result is folded into "not a tensor pointer".
- Xmx: values are opaque elements of type `T`. The DPAS intrinsic is a function parameter. LLVM struct packing, bitcasts and debug printing are identity or omitted. `convertXMXDot`'s encoding asserts are not modelled separately; `ConvertDot` with `LoadC` is what it calls.
- Xmx: `threadsPerWarp > 0` and non-empty operand lists are preconditions, because the lowering only runs on valid DPAS layouts. The table lookups of the source are present by construction.
- Gemm: the Triton kernels' tensor arithmetic, float results, `assert_close`, autotuning and other providers are not modelled. Block sizes, `GROUP_SIZE_M` and `DEVICE_TOTAL_MEMORY` are parameters. The skip message is not printed.
- Debug output (`LDBG`, `MLIR_ENABLE_DUMP`, `std::cout`) is not modelled.
