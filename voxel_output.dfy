/** The voxel output grid (`VoxelOutput`): a table from slot number to write
    target (a 3-D texture or a linear buffer), the grid dimensions the targets
    are sized to, and the export of a volume target into a flat byte buffer. */
module Output {
  import opened Outcomes
  import opened Arith

  /** DXGI_FORMAT_UNKNOWN, the format recorded for linear buffer targets. */
  const FormatUnknown: nat := 0

  /** `~0` as a 64-bit size_t: the element count recorded for volume targets. */
  const UnlimitedCount: nat := 0xFFFF_FFFF_FFFF_FFFF

  /** What a slot was registered with. */
  datatype UavPara = UavPara(slot: nat, format: nat, elementSize: nat, isTexture: bool, elementCount: nat)

  /** The GPU storage behind a slot: none until the grid is first sized, then a
      w×h×d volume or a linear buffer, one cell per element. */
  datatype Target =
    | Unallocated
    | Volume(width: nat, height: nat, depth: nat, cells: seq<nat>)
    | Linear(cells: seq<nat>)

  datatype Uav = Uav(para: UavPara, target: Target)

  /** A freshly created target cleared with `ClearUnorderedAccessViewUint` to 0. */
  function Zeros(n: nat): seq<nat>
  {
    seq(n, _ => 0)
  }

  function MinCount(a: nat, b: nat): nat { if a <= b then a else b }

  /** The backend's read mapping of the staging copy of a volume target: its
      bytes, the distance between rows, and the distance between depth slices.
      The export only reads the mapping, so its bytes are a value. */
  datatype Mapped = Mapped(pData: seq<bv8>, rowPitch: nat, depthPitch: nat)

  // The export layout: for each depth slice z, for each row y, `stride` bytes
  // read from `start + z * depthPitch + y * rowPitch`, one after the other.

  /** The bytes of `depth` slices of `height` rows of `stride` bytes. */
  lemma VolumeSize(depth: nat, height: nat, stride: nat)
    ensures Mul(depth, Mul(height, stride)) == stride * height * depth
  {
    MulIsProduct(height, stride);
    MulIsProduct(depth, height * stride);
    assert depth * (height * stride) == stride * height * depth;
  }

  lemma AppendAssoc<T>(a: seq<T>, b: seq<T>, c: seq<T>)
    ensures a + (b + c) == (a + b) + c
  {
  }

  lemma AppendNil<T>(a: seq<T>)
    ensures a + [] == a
  {
  }

  lemma SeqAppendLeft<T>(a: seq<T>, b: seq<T>, i: nat)
    requires i < |a|
    ensures (a + b)[i] == a[i]
  {
  }

  lemma SeqAppendRight<T>(a: seq<T>, b: seq<T>, i: nat)
    requires i < |b|
    ensures |a| + i < |a + b| && (a + b)[|a| + i] == b[i]
  {
  }

  lemma AppendIndexRight<T>(a: seq<T>, b: seq<T>, k: nat, i: nat)
    requires k < |b| && i == |a| + k
    ensures i < |a + b| && (a + b)[i] == b[k]
  {
  }

  /** The `n` bytes from byte `at` on, one at a time; nothing for a row that
      would run past the source. */
  function Row<T>(src: seq<T>, at: nat, n: nat): seq<T>
    decreases n
  {
    if n == 0 || |src| < at + n then [] else Row(src, at, n - 1) + [src[at + n - 1]]
  }

  /** A row that fits holds `n` bytes. */
  lemma {:induction false} RowLength<T>(src: seq<T>, at: nat, n: nat)
    requires at + n <= |src|
    ensures |Row(src, at, n)| == n
    decreases n
  {
    if 0 < n {
      RowLength(src, at, n - 1);
    }
  }

  /** Byte x of a row, at `j`, is byte `at + x` of the source. */
  lemma {:induction false} RowAt<T>(src: seq<T>, at: nat, n: nat, x: nat, j: nat)
    requires at + n <= |src| && x < n && j == at + x
    ensures j < |src| && x < |Row(src, at, n)| && Row(src, at, n)[x] == src[j]
    decreases n
  {
    RowLength(src, at, n - 1);
    if x < n - 1 {
      RowAt(src, at, n - 1, x, j);
      SeqAppendLeft(Row(src, at, n - 1), [src[at + n - 1]], x);
    } else {
      SeqAppendRight(Row(src, at, n - 1), [src[at + n - 1]], 0);
    }
  }

  /** A row that fits is the slice of the source it is read from. */
  lemma {:induction false} RowIsSlice<T>(src: seq<T>, at: nat, n: nat)
    requires at + n <= |src|
    ensures Row(src, at, n) == src[at..at + n]
    decreases n
  {
    if 0 < n {
      RowIsSlice(src, at, n - 1);
      RowLength(src, at, n - 1);
      assert src[at..at + n] == src[at..at + n - 1] + [src[at + n - 1]];
    }
  }

  /** The rows of one slice fit in `n` bytes when its last row does. */
  predicate SliceFits(n: nat, base: nat, rowPitch: nat, stride: nat, rows: nat)
  {
    stride == 0 || rows == 0 || base + Mul(rows - 1, rowPitch) + stride <= n
  }

  /** A slice that fits has its first y rows fit. */
  lemma SliceFitsPrefix(n: nat, base: nat, rowPitch: nat, stride: nat, rows: nat, y: nat)
    requires SliceFits(n, base, rowPitch, stride, rows) && y <= rows
    ensures SliceFits(n, base, rowPitch, stride, y)
  {
    if 0 < y {
      MulMono(y - 1, rows - 1, rowPitch);
    }
  }

  /** The first `rows` rows of one depth slice whose first row starts at byte
      `base`, row y read at `base + y * rowPitch`. */
  function SliceRows<T>(src: seq<T>, base: nat, rowPitch: nat, stride: nat, rows: nat): seq<T>
    decreases rows
  {
    if rows == 0 then []
    else SliceRows(src, base, rowPitch, stride, rows - 1) + Row(src, base + Mul(rows - 1, rowPitch), stride)
  }

  /** A slice of `rows` rows that fits holds `rows * stride` bytes. */
  lemma {:induction false} SliceRowsLength<T>(src: seq<T>, base: nat, rowPitch: nat, stride: nat, rows: nat)
    requires SliceFits(|src|, base, rowPitch, stride, rows)
    ensures |SliceRows(src, base, rowPitch, stride, rows)| == Mul(rows, stride)
    decreases rows
  {
    if 0 < rows {
      if stride == 0 {
        MulZero(rows - 1);
      } else {
        RowLength(src, base + Mul(rows - 1, rowPitch), stride);
      }
      SliceFitsPrefix(|src|, base, rowPitch, stride, rows, rows - 1);
      SliceRowsLength(src, base, rowPitch, stride, rows - 1);
    }
  }

  /** Byte x of the last row of a slice, at `k`, is byte
      `base + (rows - 1) * rowPitch + x` of the source, at `j`. */
  lemma SliceRowsLastRow<T>(src: seq<T>, base: nat, rowPitch: nat, stride: nat, rows: nat,
                            x: nat, k: nat, j: nat)
    requires SliceFits(|src|, base, rowPitch, stride, rows)
    requires 0 < rows && x < stride
    requires k == Mul(rows - 1, stride) + x && j == base + Mul(rows - 1, rowPitch) + x
    ensures k < |SliceRows(src, base, rowPitch, stride, rows)| && j < |src|
    ensures SliceRows(src, base, rowPitch, stride, rows)[k] == src[j]
  {
    SliceFitsPrefix(|src|, base, rowPitch, stride, rows, rows - 1);
    SliceRowsLength(src, base, rowPitch, stride, rows - 1);
    var prev := SliceRows(src, base, rowPitch, stride, rows - 1);
    var at := base + Mul(rows - 1, rowPitch);
    var last := Row(src, at, stride);
    assert SliceRows(src, base, rowPitch, stride, rows) == prev + last;
    RowAt(src, at, stride, x, j);
    AppendIndexRight(prev, last, x, k);
  }

  /** Byte x of row y of a slice, at `k`, is byte `base + y * rowPitch + x`
      of the source, at `j`. */
  lemma {:induction false} SliceRowsIndex<T>(src: seq<T>, base: nat, rowPitch: nat, stride: nat, rows: nat,
                                             y: nat, x: nat, k: nat, j: nat)
    requires SliceFits(|src|, base, rowPitch, stride, rows)
    requires y < rows && x < stride
    requires k == Mul(y, stride) + x && j == base + Mul(y, rowPitch) + x
    ensures k < |SliceRows(src, base, rowPitch, stride, rows)| && j < |src|
    ensures SliceRows(src, base, rowPitch, stride, rows)[k] == src[j]
    decreases rows
  {
    if y < rows - 1 {
      SliceFitsPrefix(|src|, base, rowPitch, stride, rows, rows - 1);
      SliceRowsLength(src, base, rowPitch, stride, rows - 1);
      var prev := SliceRows(src, base, rowPitch, stride, rows - 1);
      var last := Row(src, base + Mul(rows - 1, rowPitch), stride);
      assert SliceRows(src, base, rowPitch, stride, rows) == prev + last;
      MulStrict(y, rows - 1, stride);
      SliceRowsIndex(src, base, rowPitch, stride, rows - 1, y, x, k, j);
      SeqAppendLeft(prev, last, k);
    } else {
      SliceRowsLastRow(src, base, rowPitch, stride, rows, x, k, j);
    }
  }


  /** Every row the export reads, from `start` on, lies within `n` bytes. */
  predicate Covers(n: nat, start: nat, rowPitch: nat, depthPitch: nat, stride: nat, height: nat, depth: nat)
  {
    stride == 0 || height == 0 || depth == 0 ||
    start + Mul(depth - 1, depthPitch) + Mul(height - 1, rowPitch) + stride <= n
  }

  /** A covered volume covers its first z slices, and slice z fits when z < depth. */
  lemma CoversPrefix(n: nat, start: nat, rowPitch: nat, depthPitch: nat, stride: nat, height: nat, depth: nat, z: nat)
    requires Covers(n, start, rowPitch, depthPitch, stride, height, depth) && z <= depth
    ensures Covers(n, start, rowPitch, depthPitch, stride, height, z)
    ensures z < depth ==> SliceFits(n, start + Mul(z, depthPitch), rowPitch, stride, height)
  {
    if 0 < stride && 0 < height {
      if 0 < z {
        MulMono(z - 1, depth - 1, depthPitch);
      }
      if z < depth {
        MulMono(z, depth - 1, depthPitch);
      }
    }
  }

  /** The first `depth` slices of `height` rows each, slice z starting at byte
      `start + z * depthPitch`, packed without padding. */
  function Packed<T>(src: seq<T>, start: nat, rowPitch: nat, depthPitch: nat, stride: nat, height: nat, depth: nat): seq<T>
    decreases depth
  {
    if depth == 0 then []
    else
      Packed(src, start, rowPitch, depthPitch, stride, height, depth - 1)
      + SliceRows(src, start + Mul(depth - 1, depthPitch), rowPitch, stride, height)
  }

  /** The export holds `height * stride` bytes per slice: `elementSize * width`
      for every row of every slice, and nothing for the padding. */
  lemma {:induction false} PackedLength<T>(src: seq<T>, start: nat, rowPitch: nat, depthPitch: nat, stride: nat, height: nat, depth: nat)
    requires Covers(|src|, start, rowPitch, depthPitch, stride, height, depth)
    ensures |Packed(src, start, rowPitch, depthPitch, stride, height, depth)| == Mul(depth, Mul(height, stride))
    decreases depth
  {
    if 0 < depth {
      CoversPrefix(|src|, start, rowPitch, depthPitch, stride, height, depth, depth - 1);
      SliceRowsLength(src, start + Mul(depth - 1, depthPitch), rowPitch, stride, height);
      PackedLength(src, start, rowPitch, depthPitch, stride, height, depth - 1);
    }
  }

  /** Byte k of slice z of the export, at `idx`, is byte k of that slice's
      rows, which start at `base`. */
  lemma {:induction false} PackedSliceAt<T>(src: seq<T>, start: nat, rowPitch: nat, depthPitch: nat, stride: nat, height: nat, depth: nat,
                                            z: nat, k: nat, base: nat, idx: nat)
    requires Covers(|src|, start, rowPitch, depthPitch, stride, height, depth)
    requires z < depth && k < Mul(height, stride)
    requires base == start + Mul(z, depthPitch) && idx == Mul(z, Mul(height, stride)) + k
    ensures SliceFits(|src|, base, rowPitch, stride, height)
    ensures idx < |Packed(src, start, rowPitch, depthPitch, stride, height, depth)|
    ensures k < |SliceRows(src, base, rowPitch, stride, height)|
    ensures Packed(src, start, rowPitch, depthPitch, stride, height, depth)[idx] == SliceRows(src, base, rowPitch, stride, height)[k]
    decreases depth, 1
  {
    if z < depth - 1 {
      PackedSliceAtEarlier(src, start, rowPitch, depthPitch, stride, height, depth, z, k, base, idx);
    } else {
      PackedSliceAtLast(src, start, rowPitch, depthPitch, stride, height, depth, k, base, idx);
    }
  }

  /** The step of `PackedSliceAt` for a slice before the last. */
  lemma {:induction false} PackedSliceAtEarlier<T>(src: seq<T>, start: nat, rowPitch: nat, depthPitch: nat, stride: nat, height: nat, depth: nat,
                                                   z: nat, k: nat, base: nat, idx: nat)
    requires Covers(|src|, start, rowPitch, depthPitch, stride, height, depth)
    requires z < depth - 1 && k < Mul(height, stride)
    requires base == start + Mul(z, depthPitch) && idx == Mul(z, Mul(height, stride)) + k
    ensures SliceFits(|src|, base, rowPitch, stride, height)
    ensures idx < |Packed(src, start, rowPitch, depthPitch, stride, height, depth)|
    ensures k < |SliceRows(src, base, rowPitch, stride, height)|
    ensures Packed(src, start, rowPitch, depthPitch, stride, height, depth)[idx] == SliceRows(src, base, rowPitch, stride, height)[k]
    decreases depth, 0
  {
    CoversPrefix(|src|, start, rowPitch, depthPitch, stride, height, depth, depth - 1);
    MulStrict(z, depth - 1, Mul(height, stride));
    PackedSliceAt(src, start, rowPitch, depthPitch, stride, height, depth - 1, z, k, base, idx);
    SeqAppendLeft(Packed(src, start, rowPitch, depthPitch, stride, height, depth - 1),
                  SliceRows(src, start + Mul(depth - 1, depthPitch), rowPitch, stride, height), idx);
  }

  /** The step of `PackedSliceAt` for the last slice. */
  lemma PackedSliceAtLast<T>(src: seq<T>, start: nat, rowPitch: nat, depthPitch: nat, stride: nat, height: nat, depth: nat,
                             k: nat, base: nat, idx: nat)
    requires Covers(|src|, start, rowPitch, depthPitch, stride, height, depth)
    requires 0 < depth && k < Mul(height, stride)
    requires base == start + Mul(depth - 1, depthPitch) && idx == Mul(depth - 1, Mul(height, stride)) + k
    ensures SliceFits(|src|, base, rowPitch, stride, height)
    ensures idx < |Packed(src, start, rowPitch, depthPitch, stride, height, depth)|
    ensures k < |SliceRows(src, base, rowPitch, stride, height)|
    ensures Packed(src, start, rowPitch, depthPitch, stride, height, depth)[idx] == SliceRows(src, base, rowPitch, stride, height)[k]
  {
    CoversPrefix(|src|, start, rowPitch, depthPitch, stride, height, depth, depth - 1);
    PackedLength(src, start, rowPitch, depthPitch, stride, height, depth - 1);
    SliceRowsLength(src, base, rowPitch, stride, height);
    AppendIndexRight(Packed(src, start, rowPitch, depthPitch, stride, height, depth - 1),
                     SliceRows(src, start + Mul(depth - 1, depthPitch), rowPitch, stride, height), k, idx);
  }

  /** Where byte x of row y of slice z lands in the export. */
  function PackedIndex(stride: nat, height: nat, z: nat, y: nat, x: nat): nat
  {
    Mul(z, Mul(height, stride)) + Mul(y, stride) + x
  }

  /** Where byte x of row y of slice z sits in the mapped data. */
  function SourceIndex(start: nat, rowPitch: nat, depthPitch: nat, z: nat, y: nat, x: nat): nat
  {
    start + Mul(z, depthPitch) + Mul(y, rowPitch) + x
  }

  /** Byte x of row y of slice z of the export is byte `start + z * depthPitch +
      y * rowPitch + x` of the mapped data: the padding is stripped and
      nothing else moves. */
  lemma PackedAt<T>(src: seq<T>, start: nat, rowPitch: nat, depthPitch: nat, stride: nat, height: nat, depth: nat,
                    z: nat, y: nat, x: nat)
    requires Covers(|src|, start, rowPitch, depthPitch, stride, height, depth)
    requires z < depth && y < height && x < stride
    ensures PackedIndex(stride, height, z, y, x) < |Packed(src, start, rowPitch, depthPitch, stride, height, depth)|
    ensures SourceIndex(start, rowPitch, depthPitch, z, y, x) < |src|
    ensures Packed(src, start, rowPitch, depthPitch, stride, height, depth)[PackedIndex(stride, height, z, y, x)]
         == src[SourceIndex(start, rowPitch, depthPitch, z, y, x)]
  {
    var base := start + Mul(z, depthPitch);
    var k := Mul(y, stride) + x;
    MulStrict(y, height, stride);
    PackedSliceAt(src, start, rowPitch, depthPitch, stride, height, depth, z, k, base, PackedIndex(stride, height, z, y, x));
    SliceRowsIndex(src, base, rowPitch, stride, height, y, x, k, SourceIndex(start, rowPitch, depthPitch, z, y, x));
  }

  /** `memcpy(dst + dstAt, src + srcAt, n)`. */
  method CopyBytes(dst: array<bv8>, dstAt: nat, src: seq<bv8>, srcAt: nat, n: nat)
    requires dstAt + n <= dst.Length && srcAt + n <= |src|
    modifies dst
    ensures dst[..] == old(dst[..dstAt]) + src[srcAt..srcAt + n] + old(dst[dstAt + n..])
    ensures dst[..dstAt + n] == old(dst[..dstAt]) + src[srcAt..srcAt + n]
  {
    for k := 0 to n
      invariant dst[..dstAt] == old(dst[..dstAt])
      invariant dst[dstAt..dstAt + k] == src[srcAt..srcAt + k]
      invariant dst[dstAt + n..] == old(dst[dstAt + n..])
    {
      dst[dstAt + k] := src[srcAt + k];
      assert dst[dstAt..dstAt + k + 1] == dst[dstAt..dstAt + k] + [src[srcAt + k]];
    }
    assert dst[..] == dst[..dstAt] + dst[dstAt..dstAt + n] + dst[dstAt + n..];
    assert dst[..dstAt + n] == dst[..dstAt] + dst[dstAt..dstAt + n];
  }

  /** Copy the `height` rows of one depth slice, `stride` bytes each, read at
      `base + y * rowPitch`, to `out` one after the other from `pos` on. */
  method CopySlice(out: array<bv8>, pos: nat, src: seq<bv8>, base: nat, rowPitch: nat, stride: nat, height: nat)
    requires SliceFits(|src|, base, rowPitch, stride, height)
    requires pos + Mul(height, stride) <= out.Length
    modifies out
    ensures out[..pos + Mul(height, stride)] == old(out[..pos]) + SliceRows(src, base, rowPitch, stride, height)
  {
    var at := pos;
    ghost var start := out[..pos];
    AppendNil(start);
    for y := 0 to height
      invariant at == pos + Mul(y, stride)
      invariant at <= pos + Mul(height, stride)
      invariant out[..at] == start + SliceRows(src, base, rowPitch, stride, y)
    {
      MulMono(y + 1, height, stride);
      SliceFitsPrefix(|src|, base, rowPitch, stride, height, y + 1);
      at := AppendRow(out, at, src, base, rowPitch, stride, y, start);
    }
  }

  /** One pass of the row loop: copy row y of the slice, read at
      `base + y * rowPitch`, after the y rows already copied. */
  method AppendRow(out: array<bv8>, at: nat, src: seq<bv8>, base: nat, rowPitch: nat, stride: nat,
                   y: nat, ghost start: seq<bv8>)
    returns (next: nat)
    requires at + stride <= out.Length
    requires SliceFits(|src|, base, rowPitch, stride, y + 1)
    requires out[..at] == start + SliceRows(src, base, rowPitch, stride, y)
    modifies out
    ensures next == at + stride
    ensures out[..next] == start + SliceRows(src, base, rowPitch, stride, y + 1)
  {
    var row := base + Mul(y, rowPitch);
    if 0 < stride {
      RowIsSlice(src, row, stride);
      CopyBytes(out, at, src, row, stride);
      AppendAssoc(start, SliceRows(src, base, rowPitch, stride, y), src[row..row + stride]);
    } else {
      AppendNil(SliceRows(src, base, rowPitch, stride, y));
    }
    next := at + stride;
  }

  /** The export's copy loop: into a buffer of `depth * height * stride`
      bytes, slice by slice and row by row, the first `stride` bytes of each
      row of the mapped data. */
  method PackVolume(mr: Mapped, stride: nat, height: nat, depth: nat) returns (out: array<bv8>)
    requires Covers(|mr.pData|, 0, mr.rowPitch, mr.depthPitch, stride, height, depth)
    ensures fresh(out)
    ensures out[..] == Packed(mr.pData, 0, mr.rowPitch, mr.depthPitch, stride, height, depth)
  {
    var slab := Mul(height, stride);
    out := new bv8[Mul(depth, slab)];
    var pos := 0;
    for z := 0 to depth
      invariant pos == Mul(z, slab) && pos <= out.Length
      invariant out[..pos] == Packed(mr.pData, 0, mr.rowPitch, mr.depthPitch, stride, height, z)
    {
      MulMono(z + 1, depth, slab);
      CoversPrefix(|mr.pData|, 0, mr.rowPitch, mr.depthPitch, stride, height, depth, z);
      pos := AppendSlice(out, pos, mr, stride, height, z);
    }
    assert out[..] == out[..pos];
  }

  /** One pass of the outer (z) loop: copy slice z, read from `z * depthPitch`,
      after the z slices already packed. */
  method AppendSlice(out: array<bv8>, pos: nat, mr: Mapped, stride: nat, height: nat, z: nat)
    returns (next: nat)
    requires pos + Mul(height, stride) <= out.Length
    requires SliceFits(|mr.pData|, Mul(z, mr.depthPitch), mr.rowPitch, stride, height)
    requires out[..pos] == Packed(mr.pData, 0, mr.rowPitch, mr.depthPitch, stride, height, z)
    modifies out
    ensures next == pos + Mul(height, stride)
    ensures out[..next] == Packed(mr.pData, 0, mr.rowPitch, mr.depthPitch, stride, height, z + 1)
  {
    var slice := Mul(z, mr.depthPitch);
    CopySlice(out, pos, mr.pData, slice, mr.rowPitch, stride, height);
    next := pos + Mul(height, stride);
  }

  /** The exported grid handed back to the caller (`VoxelData`). */
  class VoxelData {
    var width: nat
    var height: nat
    var depth: nat
    var datas: array<bv8>

    constructor ()
      ensures width == 0 && height == 0 && depth == 0 && datas.Length == 0
    {
      width, height, depth := 0, 0, 0;
      datas := new bv8[0];
    }
  }

  class VoxelOutput {
    var width: nat
    var height: nat
    var depth: nat
    var uavs: map<nat, Uav>

    /** Every entry is registered under its own slot number. */
    ghost predicate Valid()
      reads this
    {
      forall s :: s in uavs ==> uavs[s].para.slot == s
    }

    /** A new grid has no slots and zero dimensions. */
    constructor ()
      ensures Valid() && uavs == map[]
      ensures width == 0 && height == 0 && depth == 0
    {
      width, height, depth := 0, 0, 0;
      uavs := map[];
    }

    /** `addUAVTexture3D`: register a volume target at a free slot; a used slot
        is an error and leaves the table as it was. */
    method AddUavTexture3D(slot: nat, format: nat, elementSize: nat) returns (r: Outcome)
      requires Valid()
      modifies this`uavs
      ensures Valid()
      ensures slot in old(uavs) ==> r == Fail(SlotInUse) && uavs == old(uavs)
      ensures slot !in old(uavs) ==>
        r == Pass && uavs == old(uavs)[slot := Uav(UavPara(slot, format, elementSize, true, UnlimitedCount), Unallocated)]
    {
      if slot in uavs {
        return Fail(SlotInUse);
      }
      uavs := uavs[slot := Uav(UavPara(slot, format, elementSize, true, UnlimitedCount), Unallocated)];
      r := Pass;
    }

    /** `addUAVBuffer`: register a linear buffer target of up to `elementCount`
        elements at a free slot; a used slot is an error and changes nothing. */
    method AddUavBuffer(slot: nat, elementSize: nat, elementCount: nat) returns (r: Outcome)
      requires Valid()
      modifies this`uavs
      ensures Valid()
      ensures slot in old(uavs) ==> r == Fail(SlotInUse) && uavs == old(uavs)
      ensures slot !in old(uavs) ==>
        r == Pass && uavs == old(uavs)[slot := Uav(UavPara(slot, FormatUnknown, elementSize, false, elementCount), Unallocated)]
    {
      if slot in uavs {
        return Fail(SlotInUse);
      }
      uavs := uavs[slot := Uav(UavPara(slot, FormatUnknown, elementSize, false, elementCount), Unallocated)];
      r := Pass;
    }

    /** `removeUAV`: forget one slot; nothing happens when it is not registered. */
    method RemoveUav(slot: nat)
      requires Valid()
      modifies this`uavs
      ensures Valid()
      ensures uavs.Keys == old(uavs).Keys - {slot}
      ensures forall s :: s in uavs ==> uavs[s] == old(uavs)[s]
      ensures slot !in old(uavs) ==> uavs == old(uavs)
    {
      uavs := uavs - {slot};
    }

    /** The grid is w×h×d and the table holds the slots of `before`, registered
        as they were, each target re-created and cleared to zero: a volume of
        w×h×d elements, or a buffer of `min(elementCount, w*h*d)` elements. */
    ghost predicate Resized(before: map<nat, Uav>, w: nat, h: nat, d: nat)
      reads this
    {
      && width == w && height == h && depth == d
      && uavs.Keys == before.Keys
      && (forall s :: s in uavs ==> uavs[s].para == before[s].para)
      && (forall s :: s in uavs && uavs[s].para.isTexture ==>
            uavs[s].target == Volume(w, h, d, Zeros(w * h * d)))
      && (forall s :: s in uavs && !uavs[s].para.isTexture ==>
            uavs[s].target == Linear(Zeros(MinCount(uavs[s].para.elementCount, w * h * d))))
    }

    /** `prepare(w, h, d)`: store the dimensions and re-create every registered
        target, cleared to zero. */
    method Prepare(w: nat, h: nat, d: nat)
      requires Valid()
      modifies this
      ensures Valid()
      ensures Resized(old(uavs), w, h, d)
    {
      width, height, depth := w, h, d;
      var todo := uavs.Keys;
      while todo != {}
        invariant width == w && height == h && depth == d
        invariant todo <= uavs.Keys && uavs.Keys == old(uavs).Keys
        invariant forall s :: s in uavs ==> uavs[s].para == old(uavs)[s].para
        invariant forall s :: s in todo ==> uavs[s] == old(uavs)[s]
        invariant forall s :: s in uavs && s !in todo && uavs[s].para.isTexture ==>
          uavs[s].target == Volume(w, h, d, Zeros(w * h * d))
        invariant forall s :: s in uavs && s !in todo && !uavs[s].para.isTexture ==>
          uavs[s].target == Linear(Zeros(MinCount(uavs[s].para.elementCount, w * h * d)))
        decreases todo
      {
        var s :| s in todo;
        var uav := uavs[s];
        var target;
        if uav.para.isTexture {
          target := Volume(width, height, depth, Zeros(width * height * depth));
        } else {
          var count := MinCount(uav.para.elementCount, width * height * depth);
          target := Linear(Zeros(count));
        }
        uavs := uavs[s := Uav(uav.para, target)];
        todo := todo - {s};
      }
    }

    /** `exportData`: for an unregistered slot, leave `data` alone. Otherwise
        give it the grid's dimensions and the mapped volume packed row after row,
        z then y, each row `elementSize * width` bytes read at
        `z * depthPitch + y * rowPitch`. The slot must hold a volume target. */
    method ExportData(data: VoxelData, slot: nat, mr: Mapped)
      requires slot in uavs ==> uavs[slot].target.Volume?
      requires slot in uavs ==>
        Covers(|mr.pData|, 0, mr.rowPitch, mr.depthPitch, uavs[slot].para.elementSize * width, height, depth)
      modifies data
      ensures slot !in uavs ==>
        data.width == old(data.width) && data.height == old(data.height) &&
        data.depth == old(data.depth) && data.datas == old(data.datas)
      ensures slot in uavs ==>
        && data.width == width && data.height == height && data.depth == depth
        && fresh(data.datas)
        && data.datas.Length == uavs[slot].para.elementSize * width * height * depth
        && data.datas[..] == Packed(mr.pData, 0, mr.rowPitch, mr.depthPitch,
                                    uavs[slot].para.elementSize * width, height, depth)
    {
      if slot !in uavs {
        return;
      }
      var stride := uavs[slot].para.elementSize * width;
      var out := PackVolume(mr, stride, height, depth);
      PackedLength(mr.pData, 0, mr.rowPitch, mr.depthPitch, stride, height, depth);
      VolumeSize(depth, height, stride);
      data.width, data.height, data.depth := width, height, depth;
      data.datas := out;
    }
  }
}
