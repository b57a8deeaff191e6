# AHD voxelizer core, modelled in Dafny

AHD ("After Human Declined") voxelizes triangle meshes on a Direct3D 11 GPU.
Each mesh is a *voxel resource*: a vertex stream, an optional index stream, an
effect (a shading stage) and a cached axis-aligned bounding box. A flag marks
that box as stale. A *voxel output* is a table from slot number to write
target, either a 3-D texture or a linear buffer. All targets are sized to one
grid of width × height × depth voxels. The *voxelizer* does three things:

- it owns the effects, the resources and the outputs;
- it sizes the grid from the union of the resources' boxes;
- it sweeps every resource three times, once per axis, through viewports 0, 1 and 2.

This project models that bookkeeping. Every Direct3D call is either left
opaque or recorded as a command in a trace.

| file | module | what it holds |
|---|---|---|
| `outcomes.dfy` | `Outcomes` | `Option`, `Result`, and the three errors the code throws |
| `arith.dfy` | `Arith` | `Mul`, multiplication as repeated addition, for the layout arithmetic |
| `geometry.dfy` | `Geometry` | points, boxes, the point and box merges, and the proof that a running merge yields the exact per-axis minimum and maximum |
| `voxel_resource.dfy` | `Resource` | class `VoxelResource`: the two `setVertex` overloads, sharing another resource's vertices, the two `setIndex` overloads, `setEffect`, and `prepare`'s strided rescan |
| `voxel_output.dfy` | `Output` | class `VoxelOutput`: the slot table, grid resizing, and the export that strips the row and slice padding of a mapped volume |
| `voxelizer.dfy` | `Voxelizing` | class `Voxelizer`: the effect registry, the factories, the destructor, `prepare`, `voxelize` and `voxelizeImpl` |

Modelling choices:

- Coordinates are exact reals. The box only takes minima and maxima of coordinates.
- Vertex memory is a sequence indexed by byte address. Element k is the position read at byte k.
- An index buffer is a sequence of bytes.
- A strided pointer loop `for (p = begin; p != begin + count * stride; p += stride)` visits `count` records. With stride 0 it visits none, because its end is then its start.
- The rendering calls of `addEffect`, `removeEffect`, `voxelizeImpl` and the destructor are appended to `Voxelizer.trace`.
- A throw becomes a `Fail`/`Err` carrying the kind of error.

## Model

| member | source | states |
|---|---|---|
| Geometry.MergePoint | AHD/AHD.cpp:94-98 | merging a point yields a box that contains the point and every point the old box contained |
| Geometry.MergeBox | AHD/AHD.cpp:383 | merging two boxes yields a box containing both; it is null exactly when both are null |
| Geometry.MergeBoxCommutes | AHD/AHD.cpp:383 | box merge is commutative |
| Geometry.MergeBoxAssociates | AHD/AHD.cpp:383 | box merge is associative |
| Geometry.BoxOfTight | AHD/AHD.cpp:89-98 | a running merge from a null box over any points is the exact per-axis min/max: null for no points; otherwise it holds every point and each of its six faces is touched by one |
| Geometry.TightUnique | AHD/AHD.cpp:89-98 | at most one box is exact for a sequence of points, so the running merge is the only box with that property |
| Geometry.BoxOfAppend | AHD/AHD.cpp:379-384 | the running merge over two point sequences equals the box merge of their two boxes |
| Geometry.UnionAllRemove | AHD/AHD.cpp:379-384 | in a union of boxes, any one box may be merged last |
| Geometry.UnionAllPermutation | AHD/AHD.cpp:379-384 | the union of a sequence of boxes depends only on the multiset of boxes, not their order |
| Geometry.BoxOfOrdered | AHD/AHD.cpp:388 | a box merged from points has its lower corner below its upper corner, so `getSize` is non-negative on every axis |
| Geometry.UnionAllOrdered | AHD/AHD.cpp:388 | a union of ordered boxes is ordered and has a non-negative size |
| Resource.PositionsAt | AHD/AHD.cpp:191-195 | the k-th position of the strided scan is the one stored at byte `k * stride + offset`, and that byte lies inside the memory |
| Resource.ScanBoxExact | AHD/AHD.cpp:182-199 | the scan visits `count` positions (none for stride 0), position k read at `k * stride + offset`, and its box is exactly their per-axis min/max |
| Resource.ScanRecords | AHD/AHD.cpp:187-196 | the pointer loop from 0 to `count * stride`, stepping by stride and merging the position at `p + offset`, returns the exact box of the scanned positions |
| Resource.CpuScanIgnoresPositionOffset | AHD/AHD.cpp:94-98 | the CPU `setVertex` scan, which reads at each record start, and `prepare`'s scan at `start + offset` give different boxes for one 16-byte record whose position is at byte 12 |
| Resource.VoxelResource.constructor | AHD/AHD.cpp:151-155 | a new resource has no buffers, no effect, a null box and a clean flag |
| Resource.VoxelResource.SetVertex | AHD/AHD.cpp:82-108 | stores count, stride and offset; the box is exactly the scan at each record start, ignoring the offset; the flag is clean; the vertex buffer is the first `count * stride` bytes; index state and effect are unchanged |
| Resource.VoxelResource.SetVertexFromBuffer | AHD/AHD.cpp:117-128 | stores count, stride and offset; adopts the buffer; marks the box dirty and leaves it as it was; nothing else changes |
| Resource.VoxelResource.SetVertexFromVoxelResource | AHD/AHD.cpp:110-115 | copies the other resource's box, buffer and layout, and still ends dirty |
| Resource.VoxelResource.SetIndex | AHD/AHD.cpp:130-139 | stores count and stride; an index buffer exists afterwards exactly when the data is non-null and count and stride are both non-zero, and then holds `count * stride` bytes of it; vertex state is unchanged |
| Resource.VoxelResource.SetIndexFromBuffer | AHD/AHD.cpp:141-149 | stores count and stride and adopts the buffer; vertex state is unchanged |
| Resource.VoxelResource.SetEffect | AHD/AHD.cpp:162-165 | the resource's effect becomes the given one, or none for a null pointer, and nothing else changes |
| Resource.VoxelResource.Prepare | AHD/AHD.cpp:169-217 | a clean resource, or one without a vertex buffer, keeps its box; otherwise the box becomes the exact scan at `i * stride + offset`; only the box changes, so the dirty flag is never cleared |
| Output.VoxelData.constructor | AHD/AHD.cpp:247-253 | the grid handed to `exportData` starts with zero dimensions and no bytes |
| Output.VoxelOutput.constructor | AHD/AHD.cpp:219-221 | a new output has an empty slot table |
| Output.VoxelOutput.AddUavTexture3D | AHD/AHD.cpp:223-230 | a used slot gives `SlotInUse` and leaves the table as it was; a free slot gains exactly one volume entry registered under it, and no other entry changes |
| Output.VoxelOutput.AddUavBuffer | AHD/AHD.cpp:232-239 | as above, for a linear buffer entry with format unknown and the given element count |
| Output.VoxelOutput.RemoveUav | AHD/AHD.cpp:242-245 | removes exactly the given slot; the other entries are unchanged; an absent slot leaves the table as it was |
| Output.VoxelOutput.Prepare | AHD/AHD.cpp:289-319 | the dimensions become (w, h, d); the slots and their registrations are unchanged; each volume target becomes w×h×d zeros; each buffer target becomes `min(elementCount, w*h*d)` zeros |
| Output.VoxelOutput.ExportData | AHD/AHD.cpp:247-287 | an unregistered slot leaves the data alone; otherwise the data gets the grid dimensions and a fresh buffer of `elementSize*width*height*depth` bytes holding the padded volume packed z, then y |
| Output.PackVolume | AHD/AHD.cpp:272-283 | the nested copy loop fills a fresh buffer with exactly `Packed` of the mapped bytes |
| Output.AppendSlice | AHD/AHD.cpp:275-283 | one pass of the z loop extends the packed prefix of z slices to z + 1 slices |
| Output.CopySlice | AHD/AHD.cpp:278-282 | the y loop appends the slice's `height` rows of `stride` bytes after the bytes already written, which it leaves alone |
| Output.AppendRow | AHD/AHD.cpp:280-281 | one `memcpy` plus the pointer advance appends one row of `stride` bytes |
| Output.CopyBytes | AHD/AHD.cpp:280 | `memcpy`: n bytes of the source from `srcAt` land at `dstAt`, and every other destination byte is unchanged |
| Output.PackedLength | AHD/AHD.cpp:272-273 | the packed volume has `depth * height * stride` bytes |
| Output.VolumeSize | AHD/AHD.cpp:272-273 | that length equals `elementSize * width * height * depth` when the stride is `elementSize * width` |
| Output.PackedAt | AHD/AHD.cpp:275-283 | packed byte `(z * height + y) * stride + x` is source byte `z * depthPitch + y * rowPitch + x`, for every in-range z, y, x |
| Output.SliceRowsIndex | AHD/AHD.cpp:277-282 | within one slice, packed byte `y * stride + x` is source byte `base + y * rowPitch + x` |
| Output.SliceRowsLastRow | AHD/AHD.cpp:277-282 | within the last row of a slice, packed byte `(rows - 1) * stride + x` is source byte `base + (rows - 1) * rowPitch + x` |
| Output.SliceRowsLength | AHD/AHD.cpp:278-282 | one slice packs `height * stride` bytes |
| Output.RowIsSlice | AHD/AHD.cpp:280 | the row copied by one `memcpy` is exactly the source bytes `at .. at + n` |
| Voxelizing.IndexFormatOf | AHD/AHD.cpp:461-469 | stride 2 selects 16-bit indices, stride 4 selects 32-bit indices, and every other stride selects none (in each case, if and only if) |
| Voxelizing.Sweep | AHD/AHD.cpp:446-544 | a resource's sweep fails, with `UnknownIndexFormat`, exactly when it has an index buffer whose stride is neither 2 nor 4 |
| Voxelizing.PassStep | AHD/AHD.cpp:512-541 | each pass of the viewport loop adds one effect update, for viewport n, and one draw |
| Voxelizing.ThreePasses | AHD/AHD.cpp:503-542 | the three passes draw three times, through viewports 0, 1 and 2 in order, and neither initialise nor clean an effect |
| Voxelizing.SweepShape | AHD/AHD.cpp:446-544 | a resource's sweep fails, with `UnknownIndexFormat`, exactly when it has an index buffer whose stride is neither 2 nor 4; otherwise it binds an index buffer exactly when there is one, draws the index count when indexed and the vertex count otherwise, three times from element 0, through viewports 0, 1, 2 |
| Voxelizing.SweepAll | AHD/AHD.cpp:439-442 | a loop over the resources that passes met no index buffer with an unknown stride |
| Voxelizing.SweepReadyPrefix | AHD/AHD.cpp:439-442 | when every resource the loop reaches has an effect, the same holds for every prefix of the resources |
| Voxelizing.SweepAllStops | AHD/AHD.cpp:439-442 | once one resource's sweep has thrown, later resources add no calls |
| Voxelizing.SweepAllPasses | AHD/AHD.cpp:439-442 | the loop over all resources passes if and only if no resource has an index buffer whose stride is neither 2 nor 4; when it passes, every resource had an effect and every sweep passed |
| Voxelizing.SweepAllOutcome | AHD/AHD.cpp:439-442 | a passing loop draws exactly three times per resource; the only error it can end with is an unknown index format; it never initialises or cleans an effect |
| Voxelizing.RangeGrid | AHD/AHD.cpp:387-405 | for an ordered box, the range is positive on every axis, so it is never the zero vector; each grid axis is the scaled size plus two voxels, truncated, and so at least 2 |
| Voxelizing.PreparedBoxOrdered | AHD/AHD.cpp:382-383 | a resource's box after `prepare` is ordered when its cached box was |
| Voxelizing.PreparedBoxesPermutation | AHD/AHD.cpp:379-384 | reordering the resources reorders the boxes they prepare to |
| Voxelizing.PreparedUnionPermutation | AHD/AHD.cpp:379-384 | the union `prepare` computes does not depend on the order of the resources |
| Voxelizing.PrepareResources | AHD/AHD.cpp:379-384 | the loop prepares every resource, leaving each with its prepared box, and returns the union of those boxes, which is ordered |
| Voxelizing.PrepareAt | AHD/AHD.cpp:380-384 | one pass of the loop prepares resource i; the resources before it keep their prepared boxes, even when it is listed twice |
| Voxelizing.SizeGrid | AHD/AHD.cpp:387-407 | grows the union by two voxels per axis into a non-zero range and sizes the output grid to that range in voxels; the slots and their registrations are unchanged, and every target is re-created at the new size, cleared to zero |
| Voxelizing.BalancedPush | AHD/AHD.cpp:546-561 | initialising an unregistered effect while registering it, or cleaning a registered one while unregistering it, keeps the registry's balance |
| Voxelizing.CleanedOnceStep | AHD/AHD.cpp:350-353 | cleaning one more effect extends the destructor's run of cleanings, one per effect cleaned so far and nothing else |
| Voxelizing.BalancedAppend | AHD/AHD.cpp:546-561 | calls that neither initialise nor clean an effect keep the registry's balance: each registered effect is initialised once more than it is cleaned |
| Voxelizing.Voxelizer.constructor | AHD/AHD.cpp:321-334 | a new voxelizer owns no effects, resources or outputs and has made no calls |
| Voxelizing.Voxelizer.SetVoxelSize | AHD/AHD.cpp:364-367 | stores the voxel size |
| Voxelizing.Voxelizer.SetScale | AHD/AHD.cpp:369-372 | stores the scale |
| Voxelizing.Voxelizer.AddEffect | AHD/AHD.cpp:546-551 | registers the effect and calls `init` only when it was not registered yet, so adding twice initialises once |
| Voxelizing.Voxelizer.RemoveEffect | AHD/AHD.cpp:553-561 | a registered effect is cleaned once and unregistered; an absent one changes nothing |
| Voxelizing.Voxelizer.Destroy | AHD/AHD.cpp:336-355 | releases the owned resources and outputs and appends one cleaning of each registered effect, in some order, and no other call; afterwards no effect is registered and every effect has been cleaned exactly as often as it was initialised |
| Voxelizing.Voxelizer.CreateResource | AHD/AHD.cpp:565-570 | appends a fresh, empty resource to the owned list and returns it |
| Voxelizing.Voxelizer.CreateOutput | AHD/AHD.cpp:572-577 | appends a fresh output with no slots to the owned list and returns it |
| Voxelizing.Voxelizer.Prepare | AHD/AHD.cpp:374-408 | a null array gives the zero vector and leaves the output alone; otherwise every resource holds its prepared box, and the range is the ordered union of those boxes grown by two voxels per axis; the range is never zero; the output grid is sized to it in voxels, keeping every registration and re-creating each target cleared to zero; no resource's drawing state changes |
| Voxelizing.Voxelizer.VoxelizeImpl | AHD/AHD.cpp:446-544 | an index buffer whose stride is neither 2 nor 4 fails with `UnknownIndexFormat` and records no call; otherwise exactly the calls of `Sweep` are appended; the effect registry stays balanced |
| Voxelizing.Voxelizer.DrawPasses | AHD/AHD.cpp:512-542 | the viewport loop appends the three passes, which `ThreePasses` shows are three draws of `count` elements from 0 through viewports 0, 1 and 2 |
| Voxelizing.Voxelizer.Voxelize | AHD/AHD.cpp:411-444 | a null array fails with `CannotVoxelize`, makes no calls and leaves the output alone; otherwise the resources and the output are left as `prepare` leaves them, and the resources are swept in order, stopping at the first failure, with the outcome and calls of `SweepAll`; only the resources the loop reaches need an effect |
| Voxelizing.Voxelizer.SweepResources | AHD/AHD.cpp:439-442 | the sweep loop's outcome and calls are those of `SweepAll` over the resources' draw states; a resource after the first failing one need not have an effect |
| Voxelizing.Voxelizer.SweepNext | AHD/AHD.cpp:441 | one pass of the sweep loop takes one `SweepStep` |

## Left out

- `AHD.h` and `AHDUtils.h` are not part of this model. The box merge follows the usual null/finite axis-aligned box.
- `Voxelizing.Voxelizer.constructor`: the initial voxel size and scale come from the header, so they are parameters here. Device creation and reference counting are not modelled.
- Direct3D device and context calls are not modelled: shader compilation, input layouts, buffer and texture creation, Map/Unmap, CopyResource, the rasterizer state, and binding write targets. The calls that matter to the sweep and the effect registry are recorded in the trace. The others are not.
- Backend failures are not modelled. These are the `CHECK_RESULT` throws when the backend cannot allocate a buffer, texture or staging copy.
- Floats are modelled as exact reals. See the lines on `Voxelizing.RangeGrid` and `Voxelizing.SizeGrid` below.
- Decoding a `Vector3` from bytes is not modelled. Vertex memory is a sequence of positions indexed by byte address.
- The view and projection matrices, the translation matrix and the viewport sizes are float arithmetic and are not modelled. Neither are the constant buffer contents given to the effect.
- The bodies of `DefaultEffect::init`, `prepare`, `update` and `clean` are not modelled. An effect is known only by its identity.
- `Voxelizer::cleanResource` (AHD/AHD.cpp:357-361) and `~VoxelResource` (AHD/AHD.cpp:157-160) have empty bodies, so they are not modelled.
- `Voxelizing.Voxelizer.Destroy`: the code cleans the effects in the set's pointer order. The model cleans them in some order and promises only that each registered effect is cleaned exactly once. Deleting a resource or an output is modelled as dropping it from the owned lists, and the registry is left empty.
- Fixed-width integers are modelled as unbounded naturals: the `int` row stride of `exportData` (AHD/AHD.cpp:272), the `UINT` vertex stride and the `int` draw count of `voxelizeImpl` (AHD/AHD.cpp:450, 456) and the `size_t` product in `VoxelOutput::prepare` (AHD/AHD.cpp:309). Overflow and narrowing are not modelled.
- `Resource.VoxelResource.constructor`: the cited lines only store the device. The null buffers, null effect, null box, clean flag and zero counts come from the member initialisers in `AHD.h`, which is not part of this model.
- `Output.VoxelData.constructor`: `VoxelData` is declared in `AHD.h`, which is not part of this model. The zero state is the value-initialised struct a caller passes to `exportData`.
- `Resource.VoxelResource.SetIndex` requires the index data to hold `count * stride` bytes when it is non-null and both are non-zero, which is what the buffer creation reads.
- `Voxelizing.RangeGrid` holds in exact reals. In the code's float32 arithmetic the scaled size plus two can round to just under 2 and truncate to 1, which the model does not capture.
- `Voxelizing.SizeGrid` computes the grid extents in exact reals, so it does not capture float32 rounding before the truncation.
- `Voxelizing.Voxelizer.Prepare` sizes the grid through `Voxelizing.SizeGrid`, in exact reals, so it does not capture float32 rounding either.
- `Voxelizing.Voxelizer.Voxelize` reports the grid size of `Voxelizing.Voxelizer.Prepare`, in exact reals, with the same gap.
- `Output.VoxelOutput.ExportData`: the mapped staging copy is a parameter, and its bytes are a value. The model does not tie those bytes to the target's cells, because the GPU writes the cells.
- `Output.VoxelOutput.ExportData`: the code writes through `data()` after `reserve`. The model writes a fresh buffer of the full length instead.
- `Output.VoxelOutput.ExportData` requires a volume target at the slot and a mapping that covers every row read. The code dereferences the texture, which is null for a buffer target or before `prepare`, and it reads through the raw mapping without checking.
- `Resource.VoxelResource.SetVertex` requires the CPU data to hold `count * stride` positions, which is what the buffer creation reads.
- `Resource.VoxelResource.Prepare` requires the records of a stale box to lie inside the vertex buffer. The code reads them through a raw pointer without checking.
- `Resource.VoxelResource.SetVertexFromVoxelResource` requires the other resource to have a vertex buffer, because the code takes a reference on it.
- `Voxelizing.Voxelizer.Prepare` and `Voxelizing.Voxelizer.Voxelize` require a positive grid scale (`mScale / mVoxelSize`). Otherwise the code divides by zero or sizes the grid negatively.
- `Voxelizing.Voxelizer.Prepare` and `Voxelizing.Voxelizer.Voxelize` require every cached box to be ordered, which every box a resource can reach is.
- `Voxelizing.Voxelizer.Prepare` and `Voxelizing.Voxelizer.Voxelize` do not take `count` separately from the array. The array of resources is a sequence, and `count` is its length.
- `Voxelizing.Voxelizer.VoxelizeImpl` requires the resource to have an effect (the code dereferences it) unless the sweep fails on the index format first.
- `Voxelizing.Voxelizer.Voxelize` and `Voxelizing.Voxelizer.SweepResources` require an effect only on the resources the loop reaches and whose sweep gets past the index format, which are the ones whose effect the code dereferences.
- The model follows the code where the code's behaviour is easy to misread:
  - `prepare` never clears the stale-box flag.
  - A non-null but empty resource array does not make `voxelize` fail. The range is then the two-voxel margin.
  - The CPU `setVertex` reads positions at each record start and ignores the position offset. See `Resource.CpuScanIgnoresPositionOffset`.
