# rCore aarch64: page-range arithmetic and VideoCore IV bring-up, in Dafny

This project models how the rCore kernel's aarch64 port for the Raspberry
Pi 3 finds its usable physical memory at boot, and how it brings up and
drives the VideoCore IV GPU, and proves properties about both.

- **Physical-memory range arithmetic** (`kernel/src/arch/aarch64/memory.rs`),
  module `Memory` in `memory.dfy`:
  - `memory_map` scans the boot tags (ATAGs). It returns
    `(binary_end, mem.start + mem.size)` for the first tag that carries a
    memory descriptor.
  - `to_range` turns that byte interval into a range of page numbers. The
    start is rounded down and the end is rounded up.
  - `init_frame_allocator` hands that range to the frame allocator. It
    aborts with "failed to find memory map" when there is no memory tag.
- **GPU device bring-up and request dispatch**
  (`kernel/src/arch/aarch64/board/raspi3/vc4/mod.rs`), module `Vc4` in
  `vc4.dfy`:
  - `GpuDevice::new` is a fail-fast sequence. It powers on the GPU and
    checks the V3D identification register against `0x02443356`. It then
    binds the framebuffer as a buffer object (BO) under the firmware handle
    that resolves to its address, and allocates the 512 KiB binner BO.
  - `io_control` dispatches four request codes to their handlers. Any other
    code is answered with `NotSupported`.
  - `init` installs the device in the global slot only when bring-up
    succeeds.

Everything the code asks of hardware or firmware becomes a parameter:
- the mailbox's `gpu_enable` and `mem_lock`;
- the V3D register read;
- the framebuffer driver's current framebuffer;
- `vc4_bo_create`;
- the four request handlers;
- the address of the linker symbol `_end`.

Bring-up collects these in an `Env` value. `NewDevice` returns the device,
if any, together with the trace of collaborator calls in the order the code
makes them. That trace is how the model states "not consulted" and "no
binner allocation is attempted".

Helper modules:
- `Wrappers` (`wrappers.dfy`) holds `Option` and `Result`.
- `MachineInt` (`machine_int.dfy`) holds `u32` and the explicit `as u32`
  truncation.

On a miss the handle search does not fail: the handle stays 0, the
framebuffer BO is inserted under key 0 and bring-up goes on to the binner
allocation (`vc4/mod.rs:63-83`). `Vc4.FramebufferHandle` and
`Vc4.UnmatchedFramebufferUsesHandleZero` state that behaviour.

## Model

| member | source | states |
|---|---|---|
| `MachineInt.Truncate32` | kernel/src/arch/aarch64/memory.rs:104 | the `as u32` cast of `binary_end` keeps the value below 2^32 unchanged and otherwise differs from it by a multiple of 2^32 |
| `Memory.ToRange` | kernel/src/arch/aarch64/memory.rs:55-59 | needs `start >= MEMORY_OFFSET` and `end > MEMORY_OFFSET`, or the `usize` subtractions underflow; `page_start` is the floor of `(start - MEMORY_OFFSET) / PAGE_SIZE` and `page_end` is the ceiling of `(end - MEMORY_OFFSET) / PAGE_SIZE`, both stated as bounds on multiples of the page size |
| `Memory.ToRangeCovers` | kernel/src/arch/aarch64/memory.rs:46-58 | every byte address in `[start, end)` lies in a page of the returned range |
| `Memory.ToRangeTight` | kernel/src/arch/aarch64/memory.rs:55-58 | every page of the returned range holds at least one byte of `[start, end)`, so the range is no wider than needed |
| `Memory.ToRangeNonEmpty` | kernel/src/arch/aarch64/memory.rs:56-58 | `start < end` gives `page_start < page_end`, a non-empty range |
| `Memory.FirstMemUnique` | kernel/src/arch/aarch64/memory.rs:107-110 | at most one tag is the first memory descriptor, so the tag the scan stops at is determined |
| `Memory.FirstMemIgnoresLater` | kernel/src/arch/aarch64/memory.rs:107-110 | the first memory tag depends only on the tags up to it; tags after it are never looked at |
| `Memory.MemoryMap` | kernel/src/arch/aarch64/memory.rs:103-114 | returns `None` exactly when no tag carries a memory descriptor; otherwise returns `(_end as u32, mem.start + mem.size)` of the first tag that does |
| `Memory.InitFrameAllocator` | kernel/src/arch/aarch64/memory.rs:36-44 | aborts with "failed to find memory map" exactly when no memory tag exists; otherwise the allocator receives exactly `to_range` of `memory_map`'s pair |
| `Vc4.SearchFrom` | kernel/src/arch/aarch64/board/raspi3/vc4/mod.rs:63-71 | from handle `i` on, the loop stops at the first handle whose `mem_lock` answers the framebuffer address, or leaves 0; it calls `mem_lock` on exactly the handles from `i` up to the match, or on all of them |
| `Vc4.FramebufferHandle` | kernel/src/arch/aarch64/board/raspi3/vc4/mod.rs:63-71 | the handle is the least `i` in `1..=4` with `mem_lock(i) == Ok(fb.paddr)`, and 0 exactly when no handle matches |
| `Vc4.NewDevice` | kernel/src/arch/aarch64/board/raspi3/vc4/mod.rs:34-100 | a device comes back exactly when power-on succeeds, the ident register reads `0x02443356`, a framebuffer exists and the binner allocation succeeds; the device then holds the framebuffer handle, the binner BO and the table `vc4_bo_create` left, with `bin_alloc_size` 0 |
| `Vc4.PowerOnFailureStops` | kernel/src/arch/aarch64/board/raspi3/vc4/mod.rs:36-40 | a failed `gpu_enable` gives no device, and the ident register and framebuffer are never consulted |
| `Vc4.IdentMismatchStops` | kernel/src/arch/aarch64/board/raspi3/vc4/mod.rs:43-51 | an ident value other than `0x02443356` gives no device, right after the register read |
| `Vc4.NoFramebufferNoBinner` | kernel/src/arch/aarch64/board/raspi3/vc4/mod.rs:60-87 | without a framebuffer there is no device; no `mem_lock` and no binner allocation is requested |
| `Vc4.FramebufferThenBinner` | kernel/src/arch/aarch64/board/raspi3/vc4/mod.rs:60-99 | with a framebuffer, handles 1.. are probed in order up to the match (all four on a miss); then the binner is requested once, with size 524288 and type BIN, on a table whose only entry is the framebuffer BO under the found handle, carrying `screen_size as u32`, `paddr as u32`, `vaddr` and type FB |
| `Vc4.FramebufferAtHandleThree` | kernel/src/arch/aarch64/board/raspi3/vc4/mod.rs:60-99 | concrete run: a framebuffer matched at firmware handle 3 gives a device whose framebuffer handle is 3, after probing handles 1, 2, 3 and requesting a 524288-byte binner |
| `Vc4.UnmatchedFramebufferUsesHandleZero` | kernel/src/arch/aarch64/board/raspi3/vc4/mod.rs:63-83 | when none of handles `1..=4` resolves to the framebuffer's address (whether `mem_lock` fails or answers another address), bring-up still goes on, and a successful binner allocation on the table holding the framebuffer BO under key 0 yields a device with framebuffer handle 0 |
| `Vc4.Decode` | kernel/src/arch/aarch64/board/raspi3/vc4/mod.rs:103-119 | `cmd` selects the first match arm whose code equals it, and selects none exactly when it equals none of the four codes |
| `Vc4.DecodeCodeOf` | kernel/src/arch/aarch64/board/raspi3/vc4/mod.rs:103-115 | with distinct codes, decoding a request's own code gives that request back |
| `Vc4.IoControl` | kernel/src/arch/aarch64/board/raspi3/vc4/mod.rs:102-120 | each of the four codes reaches its own handler with the caller's `data`, in match-arm order; any other code returns `Err(NotSupported)` with the device unchanged |
| `Vc4.IoControlRoutes` | kernel/src/arch/aarch64/board/raspi3/vc4/mod.rs:103-115 | with distinct codes, each request's code runs that request's handler and no other |
| `Vc4.Init` | kernel/src/arch/aarch64/board/raspi3/vc4/mod.rs:127-135 | the global slot receives the new device exactly when bring-up succeeds, and that device has both a framebuffer handle and a binner BO; otherwise the slot keeps its old content |

## Left out

- `memory::init` and `init_mmu` (`memory.rs:13-30`, `62-97`): page-table setup, system-register writes and barriers. These are hardware effects with no result to state.
- `FRAME_ALLOCATOR`, `init_heap` (the kernel's own `memory` module) and `BitAlloc` (the `bit_allocator` crate) are not part of this model. The allocator appears only as the range it receives, the success value of `Memory.InitFrameAllocator`.
- `PAGE_SIZE` (the `ucore_memory` crate) and `MEMORY_OFFSET` (the kernel's `consts` module) are not part of this model. Both are the parameter `Layout`. Every property is proved for any offset and any positive page size.
- The boot-tag reader `Atags` is not part of this model. The tags are a sequence in which each tag either carries a memory descriptor or does not.
- The width of `mem.start` and `mem.size` is defined in the ATAG module, so their sum and its `as usize` cast are unbounded. Start and end addresses are not bounded by the `usize` width either; `to_range` itself cannot overflow, since its results never exceed its inputs.
- `Memory.InitFrameAllocator`: when `memory_map` answers a start below `MEMORY_OFFSET` or an end not above it, the `usize` subtractions in `to_range` panic when overflow checks are on and wrap around otherwise. A wrapped start gives a reversed, hence empty, range starting near 2^52; a wrapped end gives a range reaching near 2^52. The requires excludes both; neither the panic nor the wrapped ranges are modelled.
- The mailbox (`gpu_enable`, `mem_lock`), the `V3D` register window and `fb::FRAME_BUFFER` are hardware and firmware channels. Their answers are fields of `Vc4.Env`.
- `Mutex`, `Arc` and `lazy_static`: locking and shared ownership. The shared framebuffer BO is represented by its key in the handle table, and the global `GPU_DEVICE` slot by an `Option<Device>` value.
- `vc4_bo_create` and the handlers `vc4_submit_cl_ioctl`, `vc4_create_bo_ioctl`, `vc4_mmap_bo_ioctl` and `vc4_free_bo_ioctl` are uninterpreted functions. The modules `vc4_bo`, `vc4_gem`, `vc4_validate`, `vc4_render_cl`, `vc4_drm`, `vc4_packet`, `vc4_drv` and `v3dReg` are not part of this model. So there is no BO store, command-list validation or render submission behaviour here.
- `Vc4.NewDevice`: `vc4_bo_create` is taken to act on the handle table only. The model makes no claim that the framebuffer entry survives the binner allocation, because that depends on `vc4_bo` code that is not part of this model.
- The numeric values of the request codes come from `vc4_drm`. They are the parameter `Vc4.IoctlCodes`. Properties that need the four codes to differ say so in their requires.
- The `FsError` variants other than `NotSupported` belong to the file-system crate. They are collapsed into one `FsFailure(code)` case.
- `info!` logging.
