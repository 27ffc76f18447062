/** Requests, statuses and backend vocabulary of protocol 1.0. */
module Wire {
  import opened Bytes
  import opened Graphs

  // ------------------------------------------------------------------------------------------
  // Requests.

  /** One program binding; access is 1 (read), 2 (write) or 3 (read and write). */
  datatype Binding = Binding(buffer: nat, offset: nat, bytes: nat, slot: nat, access: nat)

  datatype Body =
    | GetDeviceInfo
    | CreateContext
    | DestroyContext(object: nat)
    | AllocateBuffer(context: nat, desc: BufferDesc)
    | FreeBuffer(object: nat)
    | WriteBuffer(buffer: nat, offset: nat, bytes: nat, data: seq<Byte>)
    | ReadBuffer(buffer: nat, offset: nat, bytes: nat)
    | LoadProgram(context: nat, format: nat, target: seq<nat>, resident: nat, artifact: seq<Byte>)
    | UnloadProgram(object: nat)
    | CreateQueue(context: nat)
    | DestroyQueue(object: nat)
    | Submit(queue: nat, program: nat, timeout: nat, bindings: seq<Binding>)
    | PollEvent(object: nat)
    | CancelEvent(object: nat)
    | DestroyEvent(object: nat)

  datatype Request = Request(id: nat, body: Body)

  const REQUEST_HEADER_BYTES: nat := 16
  const RESPONSE_HEADER_BYTES: nat := 16
  const HARD_MAX_REQUEST_BYTES: nat := 0x100_0000
  const HARD_MAX_RESPONSE_BYTES: nat := 0x100_0000
  const MIN_MAX_REQUEST_BYTES: nat := 97
  const MIN_MAX_RESPONSE_BYTES: nat := 92
  const DEVICE_INFO_BYTES: nat := 76

  function Opcode(body: Body): nat {
    match body
    case GetDeviceInfo => 0x0001
    case CreateContext => 0x0100
    case DestroyContext(_) => 0x0101
    case AllocateBuffer(_, _) => 0x0200
    case FreeBuffer(_) => 0x0201
    case WriteBuffer(_, _, _, _) => 0x0202
    case ReadBuffer(_, _, _) => 0x0203
    case LoadProgram(_, _, _, _, _) => 0x0300
    case UnloadProgram(_) => 0x0301
    case CreateQueue(_) => 0x0400
    case DestroyQueue(_) => 0x0401
    case Submit(_, _, _, _) => 0x0500
    case PollEvent(_) => 0x0501
    case CancelEvent(_) => 0x0502
    case DestroyEvent(_) => 0x0503
  }

  predicate KnownOpcode(opcode: nat) {
    opcode in {0x0001, 0x0100, 0x0101, 0x0200, 0x0201, 0x0202, 0x0203, 0x0300, 0x0301, 0x0400, 0x0401,
               0x0500, 0x0501, 0x0502, 0x0503}
  }

  predicate IsPowerOfTwo(n: nat)
    decreases n
  {
    n == 1 || (n > 1 && n % 2 == 0 && IsPowerOfTwo(n / 2))
  }

  function Pow2(k: nat): nat { if k == 0 then 1 else 2 * Pow2(k - 1) }

  /** The alignments the protocol accepts are exactly the powers of two. */
  lemma PowersOfTwo(n: nat)
    ensures IsPowerOfTwo(n) <==> exists k: nat :: n == Pow2(k)
  {
    if IsPowerOfTwo(n) {
      var k := Exponent(n);
    }
    forall k: nat | n == Pow2(k)
      ensures IsPowerOfTwo(n)
    {
      PowerIsOne(k);
    }
  }

  lemma Exponent(n: nat) returns (k: nat)
    requires IsPowerOfTwo(n)
    ensures n == Pow2(k)
    decreases n
  {
    if n == 1 {
      k := 0;
    } else {
      var half := Exponent(n / 2);
      k := half + 1;
    }
  }

  lemma {:induction false} PowerIsOne(k: nat)
    ensures IsPowerOfTwo(Pow2(k)) && Pow2(k) >= 1
  {
    if k > 0 {
      PowerIsOne(k - 1);
      assert Pow2(k) / 2 == Pow2(k - 1);
    }
  }

  /** Bytes of the largest successful response payload of a request. */
  function SuccessPayload(body: Body): nat {
    match body
    case GetDeviceInfo => DEVICE_INFO_BYTES
    case CreateContext => 8
    case AllocateBuffer(_, _) => 8
    case LoadProgram(_, _, _, _, _) => 8
    case CreateQueue(_) => 8
    case Submit(_, _, _, _) => 8
    case PollEvent(_) => 8
    case ReadBuffer(_, _, bytes) => bytes
    case _ => 0
  }

  function RequiredResponse(body: Body): nat { RESPONSE_HEADER_BYTES + SuccessPayload(body) }

  // ------------------------------------------------------------------------------------------
  // Statuses.

  datatype BackendError =
    | Unsupported | Incompatible | InvalidArgument | OutOfBounds | Busy | OutOfMemory | ResourceLimit
    | DeadlineExpired | DeviceLost | PermissionDenied | External(domain: nat, code: int)

  datatype EventState = Pending | Complete | Failed(error: BackendError) | Cancelled

  const OK: nat := 0
  const UNSUPPORTED: nat := 1
  const INCOMPATIBLE: nat := 2
  const INVALID_ARGUMENT: nat := 3
  const OUT_OF_BOUNDS: nat := 4
  const BUSY: nat := 5
  const OUT_OF_MEMORY: nat := 6
  const RESOURCE_LIMIT: nat := 7
  const DEADLINE_EXPIRED: nat := 8
  const DEVICE_LOST: nat := 9
  const PERMISSION_DENIED: nat := 10
  const STALE_OBJECT: nat := 11
  const INTERNAL_ERROR: nat := 0xffff

  predicate KnownStatus(status: nat) { status <= 11 || status == INTERNAL_ERROR }

  function StatusOfBackend(e: BackendError): (s: nat)
    ensures KnownStatus(s) && s != OK
    ensures s == DEVICE_LOST <==> e == BackendError.DeviceLost
  {
    match e
    case Unsupported => UNSUPPORTED
    case Incompatible => INCOMPATIBLE
    case InvalidArgument => INVALID_ARGUMENT
    case OutOfBounds => OUT_OF_BOUNDS
    case Busy => BUSY
    case OutOfMemory => OUT_OF_MEMORY
    case ResourceLimit => RESOURCE_LIMIT
    case DeadlineExpired => DEADLINE_EXPIRED
    case DeviceLost => DEVICE_LOST
    case PermissionDenied => PERMISSION_DENIED
    case External(_, _) => INTERNAL_ERROR
  }

  function StatusOfState(e: StateError): (s: nat)
    ensures KnownStatus(s) && s != OK && s != DEVICE_LOST
  {
    match e
    case InvalidArgument => INVALID_ARGUMENT
    case InvalidObject => INVALID_ARGUMENT
    case StaleObject => STALE_OBJECT
    case ContextMismatch => STALE_OBJECT
    case Busy => BUSY
    case ReleasePending => BUSY
    case ResourceLimit => RESOURCE_LIMIT
    case ReferenceCountOverflow => RESOURCE_LIMIT
    case OutOfMemory => OUT_OF_MEMORY
    case InvalidTransition => INTERNAL_ERROR
  }

  /** A status names its backend error, except that every external error is an internal one. */
  lemma BackendStatuses(a: BackendError, b: BackendError)
    ensures StatusOfBackend(a) == StatusOfBackend(b) <==> a == b || (a.External? && b.External?)
  {}

  /** The codes of protocol 1.0: which error each assigned number stands for, and no other number is sent. */
  lemma BackendCodes(e: BackendError)
    ensures StatusOfBackend(e) == 1 <==> e == Unsupported
    ensures StatusOfBackend(e) == 2 <==> e == Incompatible
    ensures StatusOfBackend(e) == 3 <==> e == BackendError.InvalidArgument
    ensures StatusOfBackend(e) == 4 <==> e == OutOfBounds
    ensures StatusOfBackend(e) == 5 <==> e == BackendError.Busy
    ensures StatusOfBackend(e) == 6 <==> e == BackendError.OutOfMemory
    ensures StatusOfBackend(e) == 7 <==> e == BackendError.ResourceLimit
    ensures StatusOfBackend(e) == 8 <==> e == DeadlineExpired
    ensures StatusOfBackend(e) == 9 <==> e == BackendError.DeviceLost
    ensures StatusOfBackend(e) == 10 <==> e == PermissionDenied
    ensures StatusOfBackend(e) == 0xffff <==> e.External?
  {}

  /** The four pairs of state errors a guest cannot tell apart. */
  predicate Merged(a: StateError, b: StateError) {
    || (a == StateError.InvalidArgument && b == InvalidObject)
    || (a == StaleObject && b == ContextMismatch)
    || (a == StateError.Busy && b == ReleasePending)
    || (a == StateError.ResourceLimit && b == ReferenceCountOverflow)
  }

  lemma StateStatuses(a: StateError, b: StateError)
    ensures StatusOfState(a) == StatusOfState(b) <==> a == b || Merged(a, b) || Merged(b, a)
  {}

  lemma StateCodes(e: StateError)
    ensures StatusOfState(e) == 3 <==> e in {StateError.InvalidArgument, InvalidObject}
    ensures StatusOfState(e) == 5 <==> e in {StateError.Busy, ReleasePending}
    ensures StatusOfState(e) == 6 <==> e == StateError.OutOfMemory
    ensures StatusOfState(e) == 7 <==> e in {StateError.ResourceLimit, ReferenceCountOverflow}
    ensures StatusOfState(e) == 11 <==> e in {StaleObject, ContextMismatch}
    ensures StatusOfState(e) == 0xffff <==> e == InvalidTransition
  {}

  // ------------------------------------------------------------------------------------------
  // Buffer usage.

  predicate UsageBit(usage: nat, weight: nat)
    requires weight > 0
  {
    usage / weight % 2 == 1
  }

  const TRANSFER_SOURCE: nat := 1
  const TRANSFER_DESTINATION: nat := 2
  const PROGRAM_INPUT: nat := 4
  const PROGRAM_OUTPUT: nat := 8
  const MUTABLE_STATE: nat := 16

  /** Whether a buffer's declared usage permits one program access mode. */
  predicate AllowsAccess(usage: nat, access: nat) {
    if access == 1 then UsageBit(usage, PROGRAM_INPUT) || UsageBit(usage, MUTABLE_STATE)
    else if access == 2 then UsageBit(usage, PROGRAM_OUTPUT) || UsageBit(usage, MUTABLE_STATE)
    else UsageBit(usage, MUTABLE_STATE)
  }

  // ------------------------------------------------------------------------------------------
  // Binding structure.

  ghost predicate DistinctSlots(slots: seq<nat>) {
    forall i, j | 0 <= i < j < |slots| :: slots[i] != slots[j]
  }

  /** Nonempty, bounded and free of duplicate slots; strictly ordered input takes a linear path. */
  method ValidateBindings(slots: seq<nat>, maxBindings: nat) returns (r: Option<BackendError>)
    ensures r.None? <==> 1 <= |slots| <= maxBindings && DistinctSlots(slots)
    ensures r.Some? ==>
              r.value
              == if 1 <= |slots| <= maxBindings then BackendError.InvalidArgument else BackendError.ResourceLimit
  {
    if |slots| == 0 || |slots| > maxBindings { return Some(BackendError.ResourceLimit); }
    var ordered := true;
    for i := 1 to |slots|
      invariant ordered <==> forall k | 0 < k < i :: slots[k - 1] < slots[k]
      invariant ordered ==> forall j, k | 0 <= j < k < i :: slots[j] < slots[k]
    {
      ordered := ordered && slots[i - 1] < slots[i];
    }
    if ordered { return None; }
    for index := 0 to |slots|
      invariant DistinctSlots(slots[..index])
    {
      for prior := 0 to index
        invariant forall j | 0 <= j < prior :: slots[j] != slots[index]
      {
        if slots[prior] == slots[index] { return Some(BackendError.InvalidArgument); }
      }
    }
    assert slots[..|slots|] == slots;
    return None;
  }
}
