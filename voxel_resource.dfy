/** The geometry resource (`VoxelResource`): a vertex stream, an optional
    index stream, the shading effect it is drawn with, and a cached bounding
    box with a flag saying the box must be recomputed from the vertex buffer. */
module Resource {
  import opened Outcomes
  import opened Geometry
  import opened Arith

  /** Vertex memory as the code reads it through a `const Vector3*` cast:
      element k is the position decoded from the bytes starting at byte
      address k. Decoding floats from bytes is not modelled. */
  type VertexMemory = seq<Vec3>

  /** The contents of a GPU vertex buffer, as a read-back mapping shows them. */
  datatype VertexBuffer = VertexBuffer(contents: VertexMemory)

  /** The contents of a GPU index buffer. */
  datatype IndexBuffer = IndexBuffer(contents: seq<bv8>)

  /** An effect (shading stage) is known by its identity only. */
  type EffectId = nat

  // Strided addressing: record i starts at byte i * stride.

  /** The position field of each of the first `count` records lies in `mem`. */
  predicate Addressable(mem: VertexMemory, count: nat, stride: nat, offset: nat)
  {
    count == 0 || Mul(count - 1, stride) + offset < |mem|
  }

  lemma AddressablePrefix(mem: VertexMemory, i: nat, count: nat, stride: nat, offset: nat)
    requires i <= count && Addressable(mem, count, stride, offset)
    ensures Addressable(mem, i, stride, offset)
  {
    if 0 < i {
      MulMono(i - 1, count - 1, stride);
    }
  }

  /** A buffer of `count * stride` bytes holds the first field of every record. */
  lemma BufferAddressable(mem: VertexMemory, count: nat, stride: nat)
    requires 0 < stride && count * stride <= |mem|
    ensures Addressable(mem, count, stride, 0)
  {
    MulIsProduct(count, stride);
    if 0 < count {
      MulStrict(count - 1, count, stride);
    }
  }

  /** The positions of the first `count` records, read at `i * stride + offset`. */
  function Positions(mem: VertexMemory, count: nat, stride: nat, offset: nat): (ps: seq<Vec3>)
    requires Addressable(mem, count, stride, offset)
    ensures |ps| == count
  {
    if count == 0 then []
    else
      AddressablePrefix(mem, count - 1, count, stride, offset);
      Positions(mem, count - 1, stride, offset) + [mem[Mul(count - 1, stride) + offset]]
  }

  lemma {:induction false} PositionsAt(mem: VertexMemory, count: nat, stride: nat, offset: nat, k: nat)
    requires Addressable(mem, count, stride, offset) && k < count
    ensures |Positions(mem, count, stride, offset)| == count
    ensures Mul(k, stride) + offset < |mem|
    ensures Positions(mem, count, stride, offset)[k] == mem[Mul(k, stride) + offset]
  {
    MulMono(k, count - 1, stride);
    AddressablePrefix(mem, count - 1, count, stride, offset);
    var prev := Positions(mem, count - 1, stride, offset);
    var last := mem[Mul(count - 1, stride) + offset];
    if k < count - 1 {
      PositionsAt(mem, count - 1, stride, offset, k);
      assert (prev + [last])[k] == prev[k];
    } else {
      assert (prev + [last])[k] == last;
    }
  }

  /** The records a pointer loop `for (p = base; p != base + count * stride; p += stride)`
      visits: all `count` of them, or none when the stride is 0 (the end is then
      the start). */
  function ScannedPositions(mem: VertexMemory, count: nat, stride: nat, offset: nat): seq<Vec3>
    requires stride == 0 || Addressable(mem, count, stride, offset)
  {
    if stride == 0 then [] else Positions(mem, count, stride, offset)
  }

  /** The box such a loop leaves when it starts from a null box and merges each position. */
  function ScanBox(mem: VertexMemory, count: nat, stride: nat, offset: nat): Box
    requires stride == 0 || Addressable(mem, count, stride, offset)
  {
    BoxOf(ScannedPositions(mem, count, stride, offset))
  }

  /** The scanned box is exactly the per-axis min/max of the positions at
      `k * stride + offset`, k < count (no positions at all for stride 0). */
  lemma ScanBoxExact(mem: VertexMemory, count: nat, stride: nat, offset: nat)
    requires stride == 0 || Addressable(mem, count, stride, offset)
    ensures var ps := ScannedPositions(mem, count, stride, offset);
      && |ps| == (if stride == 0 then 0 else count)
      && (forall k :: 0 <= k < |ps| ==> Mul(k, stride) + offset < |mem| && ps[k] == mem[Mul(k, stride) + offset])
      && Tight(ScanBox(mem, count, stride, offset), ps)
  {
    var ps := ScannedPositions(mem, count, stride, offset);
    BoxOfTight(ps);
    if 0 < stride {
      forall k | 0 <= k < count
        ensures Mul(k, stride) + offset < |mem| && ps[k] == mem[Mul(k, stride) + offset]
      {
        PositionsAt(mem, count, stride, offset, k);
      }
      if 0 < count {
        PositionsAt(mem, count, stride, offset, 0);
      }
    }
  }

  /** The strided scan: merge the position at `p + offset` for every record
      start `p` from 0 up to `count * stride`, stepping by `stride`. */
  method ScanRecords(mem: VertexMemory, count: nat, stride: nat, offset: nat) returns (box: Box)
    requires stride == 0 || Addressable(mem, count, stride, offset)
    ensures box == ScanBox(mem, count, stride, offset)
  {
    box := Null;
    var bufferSize := count * stride;
    MulIsProduct(count, stride);
    var at := 0;
    ghost var i: nat := 0;
    while at != bufferSize
      invariant i <= count && at == Mul(i, stride) && at <= bufferSize
      invariant stride == 0 ==> i == 0
      invariant Addressable(mem, i, stride, offset)
      invariant box == BoxOf(Positions(mem, i, stride, offset))
      decreases bufferSize - at
    {
      assert i < count;
      MulStrict(i, count, stride);
      AddressablePrefix(mem, i + 1, count, stride, offset);
      assert Positions(mem, i + 1, stride, offset) == Positions(mem, i, stride, offset) + [mem[at + offset]];
      box := MergePoint(box, mem[at + offset]);
      at := at + stride;
      i := i + 1;
    }
    if 0 < stride && i < count {
      MulStrict(i, count, stride);
    }
  }

  /** The box the CPU overload of `setVertex` computes ignores the position
      offset, while `prepare` honours it: for one 16-byte record whose
      position sits at byte 12, the two disagree. */
  lemma CpuScanIgnoresPositionOffset()
    ensures var mem := seq(16, k => if k == 12 then Vec3(1.0, 1.0, 1.0) else Vec3(0.0, 0.0, 0.0));
      ScanBox(mem, 1, 16, 0) != ScanBox(mem, 1, 16, 12)
  {
    var mem := seq(16, k => if k == 12 then Vec3(1.0, 1.0, 1.0) else Vec3(0.0, 0.0, 0.0));
    assert mem[0] == Vec3(0.0, 0.0, 0.0) && mem[12] == Vec3(1.0, 1.0, 1.0);
    assert Positions(mem, 1, 16, 0) == [mem[0]];
    assert Positions(mem, 1, 16, 12) == [mem[12]];
    assert BoxOf([mem[0]]) == Finite(mem[0], mem[0]);
    assert BoxOf([mem[12]]) == Finite(mem[12], mem[12]);
  }

  class VoxelResource {
    var vertexBuffer: Option<VertexBuffer>
    var vertexCount: nat
    var vertexStride: nat
    var positionOffset: nat
    var indexBuffer: Option<IndexBuffer>
    var indexCount: nat
    var indexStride: nat
    var aabb: Box
    var needCalSize: bool
    var effect: Option<EffectId>

    /** A new resource has no buffers, no effect and a null box. */
    constructor ()
      ensures vertexBuffer == None && indexBuffer == None && effect == None
      ensures aabb == Null && !needCalSize
      ensures vertexCount == 0 && vertexStride == 0 && positionOffset == 0
      ensures indexCount == 0 && indexStride == 0
    {
      vertexBuffer, indexBuffer, effect := None, None, None;
      aabb, needCalSize := Null, false;
      vertexCount, vertexStride, positionOffset := 0, 0, 0;
      indexCount, indexStride := 0, 0;
    }

    /** `setVertex` from CPU data: store the layout, compute the box from the
        position at every record START (the position offset is not applied),
        mark the box clean and upload `count * stride` bytes as the vertex buffer. */
    method SetVertex(vertices: VertexMemory, count: nat, stride: nat, posoffset: nat)
      requires count * stride <= |vertices|
      modifies this
      ensures vertexCount == count && vertexStride == stride && positionOffset == posoffset
      ensures 0 < stride ==> Addressable(vertices, count, stride, 0)
      ensures aabb == ScanBox(vertices, count, stride, 0)
      ensures !needCalSize
      ensures vertexBuffer == Some(VertexBuffer(vertices[..count * stride]))
      ensures indexBuffer == old(indexBuffer) && indexCount == old(indexCount) && indexStride == old(indexStride)
      ensures effect == old(effect)
    {
      vertexStride := stride;
      vertexCount := count;
      positionOffset := posoffset;
      if 0 < stride {
        BufferAddressable(vertices, count, stride);
      }
      aabb := ScanRecords(vertices, count, stride, 0);
      needCalSize := false;
      vertexBuffer := Some(VertexBuffer(vertices[..count * stride]));
    }

    /** `setVertex` from a GPU buffer: store the layout and adopt the buffer;
        its positions are unknown, so the box is marked dirty and left as it was. */
    method SetVertexFromBuffer(buffer: VertexBuffer, count: nat, stride: nat, posoffset: nat)
      modifies this
      ensures vertexCount == count && vertexStride == stride && positionOffset == posoffset
      ensures vertexBuffer == Some(buffer)
      ensures needCalSize && aabb == old(aabb)
      ensures indexBuffer == old(indexBuffer) && indexCount == old(indexCount) && indexStride == old(indexStride)
      ensures effect == old(effect)
    {
      vertexStride := stride;
      vertexCount := count;
      positionOffset := posoffset;
      vertexBuffer := Some(buffer);
      needCalSize := true;
    }

    /** Share another resource's vertex buffer: its box is copied, but the
        adopting `setVertex` then marks the box dirty all the same. The other
        resource must have a vertex buffer (the code takes a reference on it). */
    method SetVertexFromVoxelResource(res: VoxelResource)
      requires res.vertexBuffer.Some?
      modifies this
      ensures aabb == old(res.aabb) && needCalSize
      ensures vertexBuffer == old(res.vertexBuffer)
      ensures vertexCount == old(res.vertexCount) && vertexStride == old(res.vertexStride)
      ensures positionOffset == old(res.positionOffset)
      ensures indexBuffer == old(indexBuffer) && indexCount == old(indexCount) && indexStride == old(indexStride)
      ensures effect == old(effect)
    {
      aabb := res.aabb;
      SetVertexFromBuffer(res.vertexBuffer.value, res.vertexCount, res.vertexStride, res.positionOffset);
    }

    /** `setIndex` from CPU data: store count and stride; an index buffer of
        `count * stride` bytes exists afterwards exactly when the data is
        non-null and both count and stride are non-zero. */
    method SetIndex(indexes: Option<seq<bv8>>, count: nat, stride: nat)
      requires indexes.Some? && count != 0 && stride != 0 ==> count * stride <= |indexes.value|
      modifies this
      ensures indexCount == count && indexStride == stride
      ensures indexBuffer.Some? <==> indexes.Some? && count != 0 && stride != 0
      ensures indexBuffer.Some? ==> indexBuffer.value.contents == indexes.value[..count * stride]
      ensures vertexBuffer == old(vertexBuffer) && vertexCount == old(vertexCount)
      ensures vertexStride == old(vertexStride) && positionOffset == old(positionOffset)
      ensures aabb == old(aabb) && needCalSize == old(needCalSize) && effect == old(effect)
    {
      indexCount := count;
      indexStride := stride;
      indexBuffer := None;
      if indexes.Some? && count != 0 && stride != 0 {
        indexBuffer := Some(IndexBuffer(indexes.value[..count * stride]));
      }
    }

    /** `setIndex` from a GPU buffer: store count and stride and adopt the buffer. */
    method SetIndexFromBuffer(buffer: IndexBuffer, count: nat, stride: nat)
      modifies this
      ensures indexCount == count && indexStride == stride && indexBuffer == Some(buffer)
      ensures vertexBuffer == old(vertexBuffer) && vertexCount == old(vertexCount)
      ensures vertexStride == old(vertexStride) && positionOffset == old(positionOffset)
      ensures aabb == old(aabb) && needCalSize == old(needCalSize) && effect == old(effect)
    {
      indexCount := count;
      indexStride := stride;
      indexBuffer := Some(buffer);
    }

    /** `setEffect`: adopt the effect, or none for a null pointer. */
    method SetEffect(e: Option<EffectId>)
      modifies this`effect
      ensures effect == e
    {
      effect := e;
    }

    /** A dirty box over a vertex buffer can be rescanned without reading past the buffer. */
    predicate PrepareSafe()
      reads this
    {
      needCalSize && vertexBuffer.Some? ==>
        vertexStride == 0 || Addressable(vertexBuffer.value.contents, vertexCount, vertexStride, positionOffset)
    }

    /** The box `prepare` leaves: the rescanned one when dirty with a vertex
        buffer, the cached one otherwise. */
    function PreparedBox(): Box
      reads this
      requires PrepareSafe()
    {
      if needCalSize && vertexBuffer.Some? then
        ScanBox(vertexBuffer.value.contents, vertexCount, vertexStride, positionOffset)
      else aabb
    }

    /** `prepare`: when the box is dirty and a vertex buffer exists, read the
        buffer back (through a staging copy when it is not CPU-readable) and
        recompute the box from the position at `i * stride + offset` of every
        record. The dirty flag is never cleared. */
    method Prepare()
      requires PrepareSafe()
      modifies this`aabb
      ensures !old(needCalSize) || old(vertexBuffer).None? ==> aabb == old(aabb)
      ensures needCalSize && vertexBuffer.Some? ==>
        aabb == ScanBox(vertexBuffer.value.contents, vertexCount, vertexStride, positionOffset)
    {
      if !needCalSize {
        return;
      }
      if vertexBuffer == None {
        return;
      }
      var mapped := vertexBuffer.value.contents;
      aabb := ScanRecords(mapped, vertexCount, vertexStride, positionOffset);
    }
  }
}
