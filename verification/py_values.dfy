/**
 * The Python values a launcher entry point receives, the Python exceptions
 * it can leave pending, and CPython's `PyLong_AsVoidPtr` conversion.
 */
module PyValues {

  import opened Wrappers

  const ADDRESS_MODULUS: int := 0x1_0000_0000_0000_0000

  /**
   * A Python argument: an `int`, `None`, a `float` (carried as an opaque
   * payload), or any other object; `dataPtr` is `None` when the object has
   * no `data_ptr` attribute and otherwise the value `data_ptr()` returns.
   */
  datatype PyValue =
    | PyInt(value: int)
    | PyNone
    | PyFloat(payload: int)
    | PyObject(dataPtr: Option<PyValue>)

  /** The Python exceptions the launchers raise or leave pending. */
  datatype PyError =
    | ParseError          // PyArg_ParseTuple rejected the call
    | MetadataTypeError   // "kernel_metadata.cluster_dims must be a tuple"
    | HookRaised          // an enter or exit hook raised
    | CapsuleError        // `PyCapsule_GetPointer` found no kernel in the capsule (ValueError)
    | PointerTypeError    // data_ptr missing, or not returning an int
    | AllocQueryFailed    // the driver could not classify the allocation
    | NotDeviceMemory     // the allocation is not XPU device memory
    | OverflowError       // an int does not fit a pointer

  /**
   * `PyLong_AsVoidPtr(PyLong)` on a 64-bit target: a negative value goes
   * through `PyLong_AsLong` and a non-negative one through
   * `PyLong_AsUnsignedLong`; a value outside both ranges gives the null
   * pointer and leaves an `OverflowError` pending.
   */
  function AsVoidPtr(v: int): (r: (nat, bool))
    ensures r.0 < ADDRESS_MODULUS
    ensures r.1 <==> !(-0x8000_0000_0000_0000 <= v < ADDRESS_MODULUS)
    ensures r.1 ==> r.0 == 0
    ensures 0 <= v < ADDRESS_MODULUS ==> r.0 == v
    ensures !r.1 ==> (r.0 - v) % ADDRESS_MODULUS == 0
  {
    if -0x8000_0000_0000_0000 <= v < ADDRESS_MODULUS then (v % ADDRESS_MODULUS, false)
    else (0, true)
  }
}
