/** The VideoCore IV GPU driver entry points of the Raspberry Pi 3 board
    (kernel/src/arch/aarch64/board/raspi3/vc4/mod.rs): device bring-up,
    the `io_control` request dispatch and `init`, which installs the device.

    Hardware and firmware channels (the mailbox, the V3D register window,
    the framebuffer driver) and the BO allocator `vc4_bo_create` are not
    modelled; their answers are the fields of an `Env`. The four request
    handlers are likewise parameters of `IoControl`. */
module Vc4 {
  import opened Wrappers
  import opened MachineInt

  /** Value of the V3D_IDENT0 register once the V3D pipeline is powered. */
  const V3D_IDENT0_MAGIC: u32 := 0x02443356

  /** Size of the binner BO allocated at bring-up (512 KiB). */
  const BIN_BO_SIZE: u32 := 512 * 1024

  /** The firmware memory handles probed for the framebuffer are
      `1..PROBE_END`, end exclusive. */
  const PROBE_END: u32 := 5

  /** `bo_type` of a buffer object: the framebuffer, the binner, or one of
      the kinds the create request hands out. */
  datatype BoType = Fb | Bin | Other(kind: nat)

  /** `gpu_bo`: a GPU buffer object. */
  datatype Bo = Bo(size: u32, handle: u32, paddr: u32, vaddr: nat, boType: BoType)

  /** What the framebuffer driver reports about the active framebuffer. */
  datatype FbInfo = FbInfo(paddr: nat, vaddr: nat, screenSize: nat)

  /** `GpuDevice`. The framebuffer BO is shared between `fb_bo` and the
      handle table, so it is kept as its key `fbHandle` into the table. */
  datatype Device = Device(
    binBo: Option<Bo>,
    fbHandle: Option<u32>,
    binAllocSize: u32,
    handleBoMap: map<u32, Bo>)

  /** The answers of everything `GpuDevice::new` consults:
      - `gpuEnable`: whether `mailbox::gpu_enable()` succeeded;
      - `ident0`: the value read from the V3D_IDENT0 register;
      - `frameBuffer`: the framebuffer driver's current framebuffer;
      - `memLock`: `mailbox::mem_lock(i)`, the bus address of firmware
        handle `i` when the firmware resolves it;
      - `boCreate`: `vc4_bo_create(size, type)` as a function of the handle
        table it runs on, giving the new table and the BO, or nothing. */
  datatype Env = Env(
    gpuEnable: bool,
    ident0: u32,
    frameBuffer: Option<FbInfo>,
    memLock: u32 -> Option<u32>,
    boCreate: (map<u32, Bo>, u32, BoType) -> Option<(map<u32, Bo>, Bo)>)

  /** One call from bring-up into a collaborator, in the order made. */
  datatype Call =
    | GpuEnable
    | ReadIdent0
    | ReadFrameBuffer
    | MemLock(id: u32)
    | BoCreate(table: map<u32, Bo>, size: u32, boType: BoType)

  /** Outcome of `GpuDevice::new`: the device, if any, and the trace of
      collaborator calls that produced it. */
  datatype BringUp = BringUp(device: Option<Device>, calls: seq<Call>)

  // ---------------------------------------------------------------------
  // Framebuffer handle search

  /** Firmware handle `i` resolves to the framebuffer's physical address. */
  predicate Locks(memLock: u32 -> Option<u32>, paddr: nat, i: u32) {
    memLock(i).Some? && memLock(i).value == paddr
  }

  /** Result of the handle search: the handle found (0 for none) and the
      `mem_lock` calls made on the way. */
  datatype Probe = Probe(handle: u32, calls: seq<Call>)

  /** The search loop `for i in 1..5` from handle `i` on: stops at the first
      handle that resolves to `paddr`, otherwise leaves the handle at 0. */
  function SearchFrom(memLock: u32 -> Option<u32>, paddr: nat, i: u32): (r: Probe)
    requires 1 <= i <= PROBE_END
    ensures r.handle == 0 || (i <= r.handle < PROBE_END && Locks(memLock, paddr, r.handle))
    ensures forall j :: i <= j < PROBE_END && (r.handle == 0 || j < r.handle) ==> !Locks(memLock, paddr, j)
    ensures |r.calls| == if r.handle == 0 then PROBE_END - i else r.handle - i + 1
    ensures forall k :: 0 <= k < |r.calls| ==> r.calls[k] == MemLock(i + k)
    decreases PROBE_END - i
  {
    if i == PROBE_END then Probe(0, [])
    else if Locks(memLock, paddr, i) then Probe(i, [MemLock(i)])
    else
      var rest := SearchFrom(memLock, paddr, i + 1);
      Probe(rest.handle, [MemLock(i)] + rest.calls)
  }

  /** The framebuffer's firmware handle: the least `i` in `1..=4` whose
      `mem_lock` answers the framebuffer's physical address, or 0 when none
      does. A miss does not stop bring-up. */
  function FramebufferHandle(memLock: u32 -> Option<u32>, paddr: nat): (h: u32)
    ensures h == 0 <==> forall j :: 1 <= j < PROBE_END ==> !Locks(memLock, paddr, j)
    ensures h != 0 ==> 1 <= h < PROBE_END && Locks(memLock, paddr, h)
    ensures forall j :: 1 <= j < h ==> !Locks(memLock, paddr, j)
  {
    SearchFrom(memLock, paddr, 1).handle
  }

  // ---------------------------------------------------------------------
  // Bring-up

  /** The framebuffer BO built from the framebuffer driver's report; the
      source casts the size and the physical address to `u32`. */
  function FramebufferBo(fb: FbInfo, handle: u32): Bo {
    Bo(Truncate32(fb.screenSize), handle, Truncate32(fb.paddr), fb.vaddr, Fb)
  }

  /** The handle table once the framebuffer is bound: its only entry. */
  function FramebufferTable(fb: FbInfo, handle: u32): map<u32, Bo> {
    map[handle := FramebufferBo(fb, handle)]
  }

  /** The calls every bring-up that gets past the framebuffer check makes
      before the handle search. */
  const CHECKS: seq<Call> := [GpuEnable, ReadIdent0, ReadFrameBuffer]

  /** Every check of bring-up passes: power-on, the identification
      register, a framebuffer, and the binner allocation on the table that
      holds the framebuffer BO. */
  ghost predicate BringUpSucceeds(env: Env) {
    && env.gpuEnable
    && env.ident0 == V3D_IDENT0_MAGIC
    && env.frameBuffer.Some?
    && var fb := env.frameBuffer.value;
       env.boCreate(FramebufferTable(fb, FramebufferHandle(env.memLock, fb.paddr)), BIN_BO_SIZE, Bin).Some?
  }

  /** `GpuDevice::new()`: a fail-fast sequence of checks. A device comes
      back exactly when every check passes; it then holds the framebuffer's
      handle and the binner BO. */
  function NewDevice(env: Env): (r: BringUp)
    ensures r.device.Some? <==> BringUpSucceeds(env)
    ensures r.device.Some? ==>
      var fb := env.frameBuffer.value;
      var h := FramebufferHandle(env.memLock, fb.paddr);
      var created := env.boCreate(FramebufferTable(fb, h), BIN_BO_SIZE, Bin).value;
      && r.device.value.fbHandle == Some(h)
      && r.device.value.binBo == Some(created.1)
      && r.device.value.handleBoMap == created.0
      && r.device.value.binAllocSize == 0
    ensures 1 <= |r.calls| && r.calls[0] == GpuEnable
  {
    if !env.gpuEnable then
      BringUp(None, [GpuEnable])
    else if env.ident0 != V3D_IDENT0_MAGIC then
      BringUp(None, [GpuEnable, ReadIdent0])
    else
      match env.frameBuffer
      case None =>
        BringUp(None, CHECKS)
      case Some(fb) =>
        var probe := SearchFrom(env.memLock, fb.paddr, 1);
        var table := FramebufferTable(fb, probe.handle);
        var calls := CHECKS + probe.calls + [BoCreate(table, BIN_BO_SIZE, Bin)];
        match env.boCreate(table, BIN_BO_SIZE, Bin)
        case None =>
          BringUp(None, calls)
        case Some((created, bbo)) =>
          BringUp(Some(Device(Some(bbo), Some(probe.handle), 0, created)), calls)
  }

  /** A failed power-on ends bring-up before the identification register
      or the framebuffer is consulted. */
  lemma PowerOnFailureStops(env: Env)
    requires !env.gpuEnable
    ensures NewDevice(env).device.None?
    ensures NewDevice(env).calls == [GpuEnable]
  {
  }

  /** A wrong identification value ends bring-up right after the read. */
  lemma IdentMismatchStops(env: Env)
    requires env.gpuEnable && env.ident0 != V3D_IDENT0_MAGIC
    ensures NewDevice(env).device.None?
    ensures NewDevice(env).calls == [GpuEnable, ReadIdent0]
  {
  }

  /** Without a framebuffer bring-up fails, and neither a firmware handle
      nor the binner allocation is ever requested. */
  lemma NoFramebufferNoBinner(env: Env)
    requires env.gpuEnable && env.ident0 == V3D_IDENT0_MAGIC && env.frameBuffer.None?
    ensures NewDevice(env).device.None?
    ensures forall c :: c in NewDevice(env).calls ==> !c.BoCreate? && !c.MemLock?
  {
  }

  /** Once the framebuffer is found: the firmware handles are probed in
      order up to the match (all four when none matches), then the binner
      is requested, once, with size 512 KiB and type BIN, on a table whose
      only entry is the framebuffer BO under the found handle. */
  lemma FramebufferThenBinner(env: Env)
    requires env.gpuEnable && env.ident0 == V3D_IDENT0_MAGIC && env.frameBuffer.Some?
    ensures
      var fb := env.frameBuffer.value;
      var h := FramebufferHandle(env.memLock, fb.paddr);
      var probed := if h == 0 then PROBE_END - 1 else h;
      var calls := NewDevice(env).calls;
      && |calls| == |CHECKS| + probed + 1
      && calls[..|CHECKS|] == CHECKS
      && (forall k :: |CHECKS| <= k < |CHECKS| + probed ==> calls[k] == MemLock(k - |CHECKS| + 1))
      && calls[|calls| - 1].BoCreate?
      && calls[|calls| - 1].size == BIN_BO_SIZE == 524288
      && calls[|calls| - 1].boType == Bin
      && calls[|calls| - 1].table.Keys == {h}
      && calls[|calls| - 1].table[h] == Bo(Truncate32(fb.screenSize), h, Truncate32(fb.paddr), fb.vaddr, Fb)
  {
  }

  /** With the framebuffer found at firmware handle 3 and the binner
      allocated, the device's framebuffer handle is 3. */
  lemma FramebufferAtHandleThree(table: map<u32, Bo>, bbo: Bo)
    ensures
      var fb := FbInfo(0x3c10_0000, 0xffff_0000_3c10_0000, 0x0017_7000);
      var env := Env(true, V3D_IDENT0_MAGIC, Some(fb),
        (i: u32) => if i == 3 then Some(0x3c10_0000) else if i == 1 then Some(0x1000) else None,
        (t: map<u32, Bo>, size: u32, ty: BoType) => Some((table, bbo)));
      && NewDevice(env).device == Some(Device(Some(bbo), Some(3), 0, table))
      && NewDevice(env).calls == CHECKS + [MemLock(1), MemLock(2), MemLock(3),
           BoCreate(map[3 := Bo(0x0017_7000, 3, 0x3c10_0000, 0xffff_0000_3c10_0000, Fb)], 524288, Bin)]
  {
  }

  /** When none of the firmware handles `1..=4` resolves to the
      framebuffer's address (each fails, or answers another address),
      bring-up does not stop: the framebuffer BO is bound under handle 0,
      and a successful binner allocation gives a device with framebuffer
      handle 0. */
  lemma UnmatchedFramebufferUsesHandleZero(env: Env)
    requires env.gpuEnable && env.ident0 == V3D_IDENT0_MAGIC && env.frameBuffer.Some?
    requires forall i :: 1 <= i < PROBE_END ==> !Locks(env.memLock, env.frameBuffer.value.paddr, i)
    requires env.boCreate(FramebufferTable(env.frameBuffer.value, 0), BIN_BO_SIZE, Bin).Some?
    ensures NewDevice(env).device.Some?
    ensures NewDevice(env).device.value.fbHandle == Some(0)
  {
  }

  // ---------------------------------------------------------------------
  // Request dispatch

  /** The four device-control requests. */
  datatype Request = SubmitCl | CreateBo | MmapBo | FreeBo

  /** The numeric codes `DRM_IOCTL_VC4_SUBMIT_CL`, `DRM_IOCTL_VC4_CREATE_BO`,
      `DRM_IOCTL_VC4_MMAP_BO` and `DRM_IOCTL_VC4_FREE_BO`, defined by the
      `vc4_drm` module. */
  datatype IoctlCodes = IoctlCodes(submitCl: nat, createBo: nat, mmapBo: nat, freeBo: nat)

  function CodeOf(codes: IoctlCodes, q: Request): nat {
    match q
    case SubmitCl => codes.submitCl
    case CreateBo => codes.createBo
    case MmapBo => codes.mmapBo
    case FreeBo => codes.freeBo
  }

  /** Position of a request's arm in the `match` of `io_control`. */
  function Arm(q: Request): nat {
    match q
    case SubmitCl => 0
    case CreateBo => 1
    case MmapBo => 2
    case FreeBo => 3
  }

  /** No two requests share a code. */
  predicate DistinctCodes(codes: IoctlCodes) {
    forall q, q' :: CodeOf(codes, q) == CodeOf(codes, q') ==> q == q'
  }

  /** The `match cmd as usize` of `io_control`: the request of the first
      arm whose code equals `cmd`, or none. */
  function Decode(codes: IoctlCodes, cmd: u32): (r: Option<Request>)
    ensures r.None? <==> forall q :: CodeOf(codes, q) != cmd
    ensures r.Some? ==> CodeOf(codes, r.value) == cmd
    ensures r.Some? ==> forall q :: Arm(q) < Arm(r.value) ==> CodeOf(codes, q) != cmd
  {
    if cmd == codes.submitCl then
      assert CodeOf(codes, SubmitCl) == cmd; Some(SubmitCl)
    else if cmd == codes.createBo then
      assert CodeOf(codes, CreateBo) == cmd; Some(CreateBo)
    else if cmd == codes.mmapBo then
      assert CodeOf(codes, MmapBo) == cmd; Some(MmapBo)
    else if cmd == codes.freeBo then
      assert CodeOf(codes, FreeBo) == cmd; Some(FreeBo)
    else None
  }

  /** With distinct codes, decoding a request's code gives the request back. */
  lemma DecodeCodeOf(codes: IoctlCodes, q: Request)
    requires DistinctCodes(codes)
    requires CodeOf(codes, q) < U32_LIMIT
    ensures Decode(codes, CodeOf(codes, q)) == Some(q)
  {
  }

  /** Error values of the file-system layer; handlers may fail with any of
      them, `NotSupported` is the one `io_control` itself returns. */
  datatype FsError = NotSupported | FsFailure(code: nat)

  /** A request handler runs on the device with the caller's `data` and
      answers the updated device and the request's outcome. */
  type Handler = (Device, nat) -> (Device, Result<(), FsError>)

  /** `vc4_submit_cl_ioctl`, `vc4_create_bo_ioctl`, `vc4_mmap_bo_ioctl` and
      `vc4_free_bo_ioctl`. */
  datatype Handlers = Handlers(submitCl: Handler, createBo: Handler, mmapBo: Handler, freeBo: Handler)

  function HandlerOf(hs: Handlers, q: Request): Handler {
    match q
    case SubmitCl => hs.submitCl
    case CreateBo => hs.createBo
    case MmapBo => hs.mmapBo
    case FreeBo => hs.freeBo
  }

  /** `GpuDevice::io_control(cmd, data)`. */
  function IoControl(codes: IoctlCodes, hs: Handlers, d: Device, cmd: u32, data: nat): (r: (Device, Result<(), FsError>))
    ensures cmd == codes.submitCl ==> r == hs.submitCl(d, data)
    ensures cmd != codes.submitCl && cmd == codes.createBo ==> r == hs.createBo(d, data)
    ensures cmd != codes.submitCl && cmd != codes.createBo && cmd == codes.mmapBo ==> r == hs.mmapBo(d, data)
    ensures cmd != codes.submitCl && cmd != codes.createBo && cmd != codes.mmapBo && cmd == codes.freeBo ==> r == hs.freeBo(d, data)
    ensures cmd != codes.submitCl && cmd != codes.createBo && cmd != codes.mmapBo && cmd != codes.freeBo ==> r == (d, Failure(NotSupported))
  {
    match Decode(codes, cmd)
    case None => (d, Failure(NotSupported))
    case Some(q) => HandlerOf(hs, q)(d, data)
  }

  /** With distinct codes, each request code reaches its own handler with
      the caller's data, whatever the other handlers do. */
  lemma IoControlRoutes(codes: IoctlCodes, hs: Handlers, d: Device, q: Request, data: nat)
    requires DistinctCodes(codes)
    requires CodeOf(codes, q) < U32_LIMIT
    ensures IoControl(codes, hs, d, CodeOf(codes, q), data) == HandlerOf(hs, q)(d, data)
  {
  }

  // ---------------------------------------------------------------------
  // init

  /** `init()`: runs bring-up and writes the global device slot only when
      a device comes back; otherwise the slot keeps what it held. */
  function Init(slot: Option<Device>, env: Env): (r: Option<Device>)
    ensures BringUpSucceeds(env) ==> r.Some? && r.value.fbHandle.Some? && r.value.binBo.Some?
    ensures BringUpSucceeds(env) ==> r == NewDevice(env).device
    ensures !BringUpSucceeds(env) ==> r == slot
  {
    match NewDevice(env).device
    case Some(v) => Some(v)
    case None => slot
  }
}
