/**
 * Shared definitions of the engine: the integer helpers of the common
 * header, message-code classification, the early-return rule used after
 * every reported error, version packing and the engine's error codes.
 */
module Base {

  /** Optional value, used where the engine returns a NULL pointer. */
  datatype Option<T> = None | Some(value: T)

  /** Outcome of a step that either yields a value or returns a message code. */
  datatype Result<T> = Ok(value: T) | Err(code: i32)

  /** Signed 32-bit message codes. */
  newtype i32 = x: int | -0x8000_0000 <= x < 0x8000_0000

  const U32_MAX: nat := 0xffff_ffff
  const U64_MAX: nat := 0xffff_ffff_ffff_ffff

  // ---------------------------------------------------------------
  // MIN, MAX, CLAMP
  // ---------------------------------------------------------------

  /** The smaller argument (the second one on a tie). */
  function Min(a: int, b: int): (r: int)
    ensures r <= a && r <= b
    ensures r == a || r == b
  {
    if a < b then a else b
  }

  /** The larger argument (the second one on a tie). */
  function Max(a: int, b: int): (r: int)
    ensures r >= a && r >= b
    ensures r == a || r == b
  {
    if a > b then a else b
  }

  /**
   * `t` limited to the range from `lo` to `hi`: the lower bound wins when
   * `t` lies below it, the upper bound when `t` lies above it.
   */
  function Clamp(lo: int, hi: int, t: int): (r: int)
    ensures t < lo ==> r == lo
    ensures lo <= t && hi < t ==> r == hi
    ensures lo <= t <= hi ==> r == t
    ensures lo <= hi ==> lo <= r <= hi
  {
    if t < lo then lo else if t > hi then hi else t
  }

  // ---------------------------------------------------------------
  // ALIGN
  // ---------------------------------------------------------------

  predicate IsPowerOfTwo(a: nat)
    decreases a
  {
    a == 1 || (a > 1 && a % 2 == 0 && IsPowerOfTwo(a / 2))
  }

  /**
   * Rounds `p` up to the next multiple of the power of two `a`. The header
   * clears the low bits of `p + a - 1`; for a power of two that is the
   * same as subtracting the remainder modulo `a`.
   */
  function Align(p: nat, a: nat): (r: nat)
    requires IsPowerOfTwo(a)
    ensures r % a == 0
    ensures p <= r < p + a
    ensures p % a == 0 ==> r == p
  {
    AlignDivision(p, a);
    (p + a - 1) - (p + a - 1) % a
  }

  lemma AlignDivision(p: nat, a: nat)
    requires a > 0
    ensures ((p + a - 1) - (p + a - 1) % a) % a == 0
    ensures p % a == 0 ==> (p + a - 1) % a == a - 1
  {
    var x := p + a - 1;
    var q := x / a;
    assert x == q * a + x % a;
    assert x - x % a == q * a;
    MultipleMod(q, a);
    if p % a == 0 {
      var k := p / a;
      assert p == k * a;
      assert x == k * a + (a - 1);
      ModOfMultiplePlus(k, a, a - 1);
    }
  }

  lemma MultipleMod(q: int, a: nat)
    requires a > 0
    ensures (q * a) % a == 0
  {
    ModOfMultiplePlus(q, a, 0);
  }

  /** Euclidean division is unique: a remainder in range is the remainder. */
  lemma ModOfMultiplePlus(k: int, a: nat, m: nat)
    requires a > 0 && m < a
    ensures (k * a + m) % a == m
  {
    var x := k * a + m;
    var q, r := x / a, x % a;
    assert x == q * a + r;
    if q > k {
      MulAtLeast(q - k, a);
    } else if q < k {
      MulAtLeast(k - q, a);
    }
  }

  lemma MulAtLeast(d: int, a: nat)
    requires d >= 1
    ensures d * a >= a
  {
  }

  // ---------------------------------------------------------------
  // Message codes
  // ---------------------------------------------------------------

  predicate MsgIsError(code: i32) { code < 0 }
  predicate MsgIsWarning(code: i32) { code > 0 }
  predicate MsgIsSuccess(code: i32) { code == 0 }

  /** Every code is exactly one of error, warning and success. */
  lemma MsgClassesPartition(code: i32)
    ensures MsgIsError(code) || MsgIsWarning(code) || MsgIsSuccess(code)
    ensures !(MsgIsError(code) && MsgIsWarning(code))
    ensures !(MsgIsError(code) && MsgIsSuccess(code))
    ensures !(MsgIsWarning(code) && MsgIsSuccess(code))
  {
  }

  /** What the enclosing function does after reporting a code. */
  datatype Flow = ReturnCode(code: i32) | FallThrough

  /**
   * The report-and-return rule: the enclosing function returns `code`
   * exactly when the callback answered non-zero, and carries on otherwise.
   */
  function MsgCallbackFlow(callbackAnswer: bool, code: i32): (f: Flow)
    ensures f.ReturnCode? <==> callbackAnswer
    ensures f.ReturnCode? ==> f.code == code
  {
    if callbackAnswer then ReturnCode(code) else FallThrough
  }

  const MSG_CODE_SUCCESS: i32 := 0
  const MSG_CODE_ERROR: i32 := -2147483648
  const MSG_CODE_WARNING: i32 := 1

  const MSG_CODE_ERROR_VK_CREATE_CONTEXT: i32 := -2147483647
  const MSG_CODE_ERROR_VK_GLFW_INIT: i32 := -2147483646
  const MSG_CODE_ERROR_VK_WINDOW_CREATE: i32 := -2147483645
  const MSG_CODE_ERROR_VK_INSATNCE_EXTENSION_MISMATCH: i32 := -2147483644
  const MSG_CODE_ERROR_VK_LAYERS_MISMATCH: i32 := -2147483643
  const MSG_CODE_ERROR_VK_INSTANCE_CREATE: i32 := -2147483642
  const MSG_CODE_ERROR_VK_SURFACE_CREATE: i32 := -2147483641
  const MSG_CODE_ERROR_VK_CONTEXT_CREATE_BUFFER_MALLOC: i32 := -2147483640
  const MSG_CODE_ERROR_VK_INFO_INVALID: i32 := -2147483639
  const MSG_CODE_ERROR_VK_LOAD_PROC: i32 := -2147483638
  const MSG_CODE_ERROR_VK_DEBUG_MESSENGER_CREATE: i32 := -2147483637
  const MSG_CODE_ERROR_VK_FAILED_TO_FIND_GPU: i32 := -2147483636
  const MSG_CODE_ERROR_VK_CREATE_DEVICE: i32 := -2147483635
  const MSG_CODE_ERROR_VK_SURFACE_STATS_NOT_SUITABLE: i32 := -2147483634
  const MSG_CODE_ERROR_VK_SWAPCHAIN_CREATE: i32 := -2147483633
  const MSG_CODE_ERROR_VK_CREATE_RENDER_CONTEXT: i32 := -2147483632
  const MSG_CODE_ERROR_VK_RENDER_RUN: i32 := -2147483631
  const MSG_CODE_ERROR_VK_SWAPCHAIN_TOO_MANY_IMAGES: i32 := -2147483630
  const MSG_CODE_ERROR_VK_IMAGE_VIEW_CREATE: i32 := -2147483629
  const MSG_CODE_ERROR_VK_RENDER_LOOP_FAIL: i32 := -2147483628
  const MSG_CODE_ERROR_VK_IMAGE_CREATE: i32 := -2147483627
  const MSG_CODE_ERROR_VK_IMAGE_BIND_MEMORY: i32 := -2147483626
  const MSG_CODE_ERROR_VK_DESCRIPTOR_POOL_CREATE: i32 := -2147483625
  const MSG_CODE_ERROR_VK_CREATE_DESCRIPTOR_SET_LAYOUT: i32 := -2147483622
  const MSG_CODE_ERROR_VK_ALLOCATE_DESCRIPTOR_SETS: i32 := -2147483621
  const MSG_CODE_ERROR_VK_ALLOCATE_VRAM: i32 := -2147483621
  const MSG_CODE_ERROR_VK_PIPELINE_LAYOUT_CREATE: i32 := -2147483620
  const MSG_CODE_ERROR_VK_SEMAPHORE_CREATE: i32 := -2147483619
  const MSG_CODE_ERROR_VK_FENCE_CREATE: i32 := -2147483618
  const MSG_CODE_ERROR_VK_COMMAND_BUFFER_ALLOCATE: i32 := -2147483617
  const MSG_CODE_ERROR_VK_COMMAND_POOL_CREATE: i32 := -2147483616
  const MSG_CODE_ERROR_VK_READ_BUFFER_REALLOC_FAIL: i32 := -2147483614
  const MSG_CODE_ERROR_VK_READ_FILE_TO_BUFFER: i32 := -2147483613
  const MSG_CODE_ERROR_VK_BUFFER_MALLOC_FAIL: i32 := -2147483612
  const MSG_CODE_ERROR_VK_SHADER_MODULE_CREATE: i32 := -2147483611
  const MSG_CODE_ERROR_VK_PIPELINE_CREATE: i32 := -2147483609
  const MSG_CODE_ERROR_VK_SWAPCHAIN_RECREATE: i32 := -2147483608
  const MSG_CODE_ERROR_VK_RESIZE_FAIL: i32 := -2147483607
  const MSG_CODE_ERROR_VK_BUFFER_CREATE: i32 := -2147483606
  const MSG_CODE_ERROR_VK_CREATE_RESOURCE: i32 := -2147483603
  const MSG_CODE_ERROR_VK_BIND_RESOURCE_MEMORY: i32 := -2147483602
  const MSG_CODE_ERROR_VK_INIT_VRAM_ARENA: i32 := -2147483601
  const MSG_CODE_ERROR_VK_MAP_MEMORY: i32 := -2147483600
  const MSG_CODE_ERROR_VK_NO_SURFACE_FORMATS_AVAILABLE: i32 := -2147483599
  const MSG_CODE_ERROR_VK_NO_PRESENT_MODES_AVAILABLE: i32 := -2147483598
  const MSG_CODE_ERROR_VK_NO_DEPTH_MODES_AVAILABLE: i32 := -2147483597
  const MSG_CODE_ERROR_VK_RESOURCE_INFO_INVALID: i32 := -2147483596
  const MSG_CODE_ERROR_VK_RENDER_PIPELINE_INVALID: i32 := -2147483595
  const MSG_CODE_ERROR_VK_OPEN_FILE: i32 := -2147483594

  /** Every code of the Vulkan-interface enumeration, in declaration order, seven to a row. */
  const VK_CODES: seq<i32> :=
      [MSG_CODE_ERROR_VK_CREATE_CONTEXT, MSG_CODE_ERROR_VK_GLFW_INIT, MSG_CODE_ERROR_VK_WINDOW_CREATE, MSG_CODE_ERROR_VK_INSATNCE_EXTENSION_MISMATCH, MSG_CODE_ERROR_VK_LAYERS_MISMATCH, MSG_CODE_ERROR_VK_INSTANCE_CREATE, MSG_CODE_ERROR_VK_SURFACE_CREATE]
    + [MSG_CODE_ERROR_VK_CONTEXT_CREATE_BUFFER_MALLOC, MSG_CODE_ERROR_VK_INFO_INVALID, MSG_CODE_ERROR_VK_LOAD_PROC, MSG_CODE_ERROR_VK_DEBUG_MESSENGER_CREATE, MSG_CODE_ERROR_VK_FAILED_TO_FIND_GPU, MSG_CODE_ERROR_VK_CREATE_DEVICE, MSG_CODE_ERROR_VK_SURFACE_STATS_NOT_SUITABLE]
    + [MSG_CODE_ERROR_VK_SWAPCHAIN_CREATE, MSG_CODE_ERROR_VK_CREATE_RENDER_CONTEXT, MSG_CODE_ERROR_VK_RENDER_RUN, MSG_CODE_ERROR_VK_SWAPCHAIN_TOO_MANY_IMAGES, MSG_CODE_ERROR_VK_IMAGE_VIEW_CREATE, MSG_CODE_ERROR_VK_RENDER_LOOP_FAIL, MSG_CODE_ERROR_VK_IMAGE_CREATE]
    + [MSG_CODE_ERROR_VK_IMAGE_BIND_MEMORY, MSG_CODE_ERROR_VK_DESCRIPTOR_POOL_CREATE, MSG_CODE_ERROR_VK_CREATE_DESCRIPTOR_SET_LAYOUT, MSG_CODE_ERROR_VK_ALLOCATE_DESCRIPTOR_SETS, MSG_CODE_ERROR_VK_ALLOCATE_VRAM, MSG_CODE_ERROR_VK_PIPELINE_LAYOUT_CREATE, MSG_CODE_ERROR_VK_SEMAPHORE_CREATE]
    + [MSG_CODE_ERROR_VK_FENCE_CREATE, MSG_CODE_ERROR_VK_COMMAND_BUFFER_ALLOCATE, MSG_CODE_ERROR_VK_COMMAND_POOL_CREATE, MSG_CODE_ERROR_VK_READ_BUFFER_REALLOC_FAIL, MSG_CODE_ERROR_VK_READ_FILE_TO_BUFFER, MSG_CODE_ERROR_VK_BUFFER_MALLOC_FAIL, MSG_CODE_ERROR_VK_SHADER_MODULE_CREATE]
    + [MSG_CODE_ERROR_VK_PIPELINE_CREATE, MSG_CODE_ERROR_VK_SWAPCHAIN_RECREATE, MSG_CODE_ERROR_VK_RESIZE_FAIL, MSG_CODE_ERROR_VK_BUFFER_CREATE, MSG_CODE_ERROR_VK_CREATE_RESOURCE, MSG_CODE_ERROR_VK_BIND_RESOURCE_MEMORY, MSG_CODE_ERROR_VK_INIT_VRAM_ARENA]
    + [MSG_CODE_ERROR_VK_MAP_MEMORY, MSG_CODE_ERROR_VK_NO_SURFACE_FORMATS_AVAILABLE, MSG_CODE_ERROR_VK_NO_PRESENT_MODES_AVAILABLE, MSG_CODE_ERROR_VK_NO_DEPTH_MODES_AVAILABLE, MSG_CODE_ERROR_VK_RESOURCE_INFO_INVALID, MSG_CODE_ERROR_VK_RENDER_PIPELINE_INVALID, MSG_CODE_ERROR_VK_OPEN_FILE]

  /**
   * The Vulkan-interface range: from just above the reserved first error
   * code up to the file-open code.
   */
  predicate IsVkErrorCode(code: i32)
  {
    MSG_CODE_ERROR < code <= MSG_CODE_ERROR_VK_OPEN_FILE
  }

  /** Every declared Vulkan-interface code lies in that range, so every one is an error. */
  lemma VkErrorCodesAreErrors()
    ensures |VK_CODES| == 49
    ensures forall i | 0 <= i < |VK_CODES| :: IsVkErrorCode(VK_CODES[i]) && MsgIsError(VK_CODES[i])
    ensures forall c | c in VK_CODES :: MsgIsError(c)
  {
    assert forall c | c in VK_CODES :: IsVkErrorCode(c);
    forall i | 0 <= i < |VK_CODES|
      ensures IsVkErrorCode(VK_CODES[i])
    {
      assert VK_CODES[i] in VK_CODES;
    }
  }

  /** The codes are not unique: two of them share one value. */
  lemma AllocateDescriptorSetsSharesVramCode()
    ensures MSG_CODE_ERROR_VK_ALLOCATE_DESCRIPTOR_SETS == MSG_CODE_ERROR_VK_ALLOCATE_VRAM
  {
  }

  // ---------------------------------------------------------------
  // MAKE_VERSION
  // ---------------------------------------------------------------

  /**
   * Packs a version into 32 bits. When the fields fit their widths
   * (10, 10 and 12 bits) each can be read back out of the packed word.
   */
  function MakeVersion(major: bv32, minor: bv32, patch: bv32): (v: bv32)
    ensures major < 1024 && minor < 1024 && patch < 4096 ==>
      v >> 22 == major && (v >> 12) & 0x3FF == minor && v & 0xFFF == patch
  {
    (major << 22) | (minor << 12) | patch
  }
}
