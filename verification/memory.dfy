/** Physical-memory range arithmetic of the aarch64 port
    (kernel/src/arch/aarch64/memory.rs): the boot-tag scan that finds the
    usable memory, and the conversion of a byte interval into the range of
    page numbers handed to the frame allocator. */
module Memory {
  import opened Wrappers
  import opened MachineInt

  /** The constants `PAGE_SIZE` (from the `ucore_memory` crate) and
      `MEMORY_OFFSET` (from the kernel's `consts` module). Neither is part of
      this model, so every statement here holds for any layout with a
      positive page size. */
  datatype LayoutData = LayoutData(pageSize: nat, memoryOffset: nat)

  /** A layout whose page size is positive. */
  type Layout = lay: LayoutData | lay.pageSize > 0 witness LayoutData(1, 0)

  /** Rust's `Range<usize>` of page numbers, `start..end`, end exclusive. */
  datatype PageRange = PageRange(start: nat, end: nat) {
    predicate Contains(p: nat) {
      start <= p < end
    }
  }

  /** The page that byte address `a` falls into. */
  function PageOf(lay: Layout, a: nat): nat
    requires lay.memoryOffset <= a
  {
    (a - lay.memoryOffset) / lay.pageSize
  }

  /** Memory descriptor carried by a boot tag. */
  datatype Mem = Mem(start: nat, size: nat)

  /** The boot tags in the order the bootloader lists them; a tag carries
      `Some(mem)` exactly when it is a memory descriptor. */
  type Atags = seq<Option<Mem>>

  /** Tag `i` is the first memory descriptor of `tags`. */
  ghost predicate FirstMemAt(tags: Atags, i: int) {
    && 0 <= i < |tags|
    && tags[i].Some?
    && forall j :: 0 <= j < i ==> tags[j].None?
  }

  /** No tag of `tags` carries a memory descriptor. */
  ghost predicate NoMem(tags: Atags) {
    forall i :: 0 <= i < |tags| ==> tags[i].None?
  }

  /** At most one tag is the first memory descriptor. */
  lemma FirstMemUnique(tags: Atags, i: int, j: int)
    requires FirstMemAt(tags, i) && FirstMemAt(tags, j)
    ensures i == j
  {
  }

  /** Which tag is the first memory descriptor depends only on the tags up
      to and including it: whatever follows is never looked at. */
  lemma FirstMemIgnoresLater(tags: Atags, tags': Atags, i: int)
    requires FirstMemAt(tags, i)
    requires i < |tags'| && tags'[..i + 1] == tags[..i + 1]
    ensures FirstMemAt(tags', i)
    ensures tags'[i] == tags[i]
  {
  }

  // ---------------------------------------------------------------------
  // Division facts used by the page arithmetic.

  lemma DivBounds(a: nat, p: nat)
    requires p > 0
    ensures (a / p) * p <= a < (a / p) * p + p
  {
  }

  lemma {:induction false} DivMonotone(a: nat, b: nat, p: nat)
    requires p > 0
    requires a <= b
    ensures a / p <= b / p
  {
    DivBounds(a, p);
    DivBounds(b, p);
    if a / p > b / p {
      MulMonotone(b / p + 1, a / p, p);
      assert false;
    }
  }

  lemma MulMonotone(x: nat, y: nat, p: nat)
    requires x <= y
    ensures x * p <= y * p
  {
  }

  /** `k * p <= a` means `k` is at most the floor of `a / p`. */
  lemma {:induction false} DivLowerBound(a: nat, k: nat, p: nat)
    requires p > 0
    requires k * p <= a
    ensures k <= a / p
  {
    DivBounds(a, p);
    if k > a / p {
      MulMonotone(a / p + 1, k, p);
      assert false;
    }
  }

  /** `a < k * p` means the floor of `a / p` is below `k`. */
  lemma DivUpperBound(a: nat, k: nat, p: nat)
    requires p > 0
    requires a < k * p
    ensures a / p < k
  {
  }

  // ---------------------------------------------------------------------
  // to_range

  /** `to_range(start, end)` of `init_frame_allocator`: the first page is
      rounded down, the end page is rounded up. Both subtractions are on
      `usize`, so the source needs `start >= MEMORY_OFFSET` and
      `end > MEMORY_OFFSET`. */
  function ToRange(lay: Layout, start: nat, end: nat): (r: PageRange)
    requires lay.memoryOffset <= start
    requires lay.memoryOffset < end
    ensures r.start * lay.pageSize <= start - lay.memoryOffset < r.start * lay.pageSize + lay.pageSize
    ensures 0 < r.end
    ensures (r.end - 1) * lay.pageSize < end - lay.memoryOffset <= (r.end - 1) * lay.pageSize + lay.pageSize
  {
    var pageStart := (start - lay.memoryOffset) / lay.pageSize;
    var pageEnd := (end - lay.memoryOffset - 1) / lay.pageSize + 1;
    DivBounds(start - lay.memoryOffset, lay.pageSize);
    DivBounds(end - lay.memoryOffset - 1, lay.pageSize);
    PageRange(pageStart, pageEnd)
  }

  /** Every byte of `[start, end)` lies in a page of `ToRange(start, end)`. */
  lemma {:induction false} ToRangeCovers(lay: Layout, start: nat, end: nat, a: nat)
    requires lay.memoryOffset <= start
    requires start <= a < end
    ensures ToRange(lay, start, end).Contains(PageOf(lay, a))
  {
    var r := ToRange(lay, start, end);
    DivMonotone(start - lay.memoryOffset, a - lay.memoryOffset, lay.pageSize);
    DivUpperBound(a - lay.memoryOffset, r.end, lay.pageSize);
  }

  /** Conversely, every page of `ToRange(start, end)` holds a byte of
      `[start, end)`: the range is no wider than it must be. */
  lemma {:induction false} ToRangeTight(lay: Layout, start: nat, end: nat, p: nat)
    requires lay.memoryOffset <= start < end
    requires ToRange(lay, start, end).Contains(p)
    ensures exists a :: start <= a < end && PageOf(lay, a) == p
  {
    var r := ToRange(lay, start, end);
    var off, ps := lay.memoryOffset, lay.pageSize;
    var base := off + p * ps;
    MulMonotone(p, r.end - 1, ps);
    assert base < end;
    if base <= start {
      DivLowerBound(start - off, p, ps);
      assert PageOf(lay, start) == p;
    } else {
      MulMonotone(r.start + 1, p, ps);
      DivLowerBound(base - off, p, ps);
      DivUpperBound(base - off, p + 1, ps);
      assert PageOf(lay, base) == p;
    }
  }

  /** A non-empty byte interval gives a non-empty page range. */
  lemma {:induction false} ToRangeNonEmpty(lay: Layout, start: nat, end: nat)
    requires lay.memoryOffset <= start < end
    ensures ToRange(lay, start, end).start < ToRange(lay, start, end).end
  {
    ToRangeCovers(lay, start, end, start);
  }

  // ---------------------------------------------------------------------
  // memory_map and init_frame_allocator

  /** End address of the memory a descriptor describes. */
  function MemEnd(m: Mem): nat {
    m.start + m.size
  }

  /** `memory_map()`: walks the boot tags and answers
      `(binary_end, mem.start + mem.size)` for the first memory descriptor.
      `kernelEnd` is the address of the linker symbol `_end`, which the
      source casts to `u32`. */
  method MemoryMap(kernelEnd: nat, tags: Atags) returns (r: Option<(nat, nat)>)
    ensures r.None? <==> NoMem(tags)
    ensures r.Some? ==> exists i :: FirstMemAt(tags, i) && r.value == (Truncate32(kernelEnd), MemEnd(tags[i].value))
  {
    var binaryEnd := Truncate32(kernelEnd);
    var k := 0;
    while k < |tags|
      invariant 0 <= k <= |tags|
      invariant forall j :: 0 <= j < k ==> tags[j].None?
    {
      if tags[k].Some? {
        assert FirstMemAt(tags, k);
        return Some((binaryEnd, MemEnd(tags[k].value)));
      }
      k := k + 1;
    }
    return None;
  }

  /** `init_frame_allocator()`: the page range inserted into the frame
      allocator, or the message of the `expect` that aborts boot when no
      memory descriptor is found. The requires are the no-underflow
      conditions of `to_range` applied to what `memory_map` returns. */
  method InitFrameAllocator(lay: Layout, kernelEnd: nat, tags: Atags) returns (r: Result<PageRange, string>)
    requires forall i :: FirstMemAt(tags, i) ==>
      lay.memoryOffset <= Truncate32(kernelEnd) && lay.memoryOffset < MemEnd(tags[i].value)
    ensures r.Failure? <==> NoMem(tags)
    ensures r.Failure? ==> r.error == "failed to find memory map"
    ensures r.Success? ==> exists i :: FirstMemAt(tags, i) && r.value == ToRange(lay, Truncate32(kernelEnd), MemEnd(tags[i].value))
  {
    var found := MemoryMap(kernelEnd, tags);
    match found
    case None =>
      return Failure("failed to find memory map");
    case Some((start, end)) =>
      return Success(ToRange(lay, start, end));
  }
}
