/** The voxelizer: it owns effects, resources and outputs, sizes the voxel
    grid from the union of the resources' boxes and sweeps each resource
    three times, once per axis. The rendering calls it issues are recorded,
    in order, as a trace of commands. */
module Voxelizing {
  import opened Outcomes
  import opened Geometry
  import opened Resource
  import opened Output

  /** The two index formats the input assembler is given. */
  datatype IndexFormat = R16Uint | R32Uint

  /** The index format for an index stride: 2 bytes, 4 bytes, or none. */
  function IndexFormatOf(stride: nat): (r: Option<IndexFormat>)
    ensures r == Some(R16Uint) <==> stride == 2
    ensures r == Some(R32Uint) <==> stride == 4
    ensures r.None? <==> stride != 2 && stride != 4
  {
    if stride == 2 then Some(R16Uint)
    else if stride == 4 then Some(R32Uint)
    else None
  }

  /** A rendering call the voxelizer makes. */
  datatype Command =
    | InitEffect(effect: EffectId)
    | CleanEffect(effect: EffectId)
    | PrepareEffect(effect: EffectId)
    | BindIndexBuffer(format: IndexFormat)
    | UpdateEffect(effect: EffectId, viewport: nat)
    | Draw(indexed: bool, count: nat, start: nat)

  /** What a sweep reads from a resource. */
  datatype DrawState = DrawState(
    useIndex: bool, indexStride: nat, indexCount: nat, vertexCount: nat, effect: Option<EffectId>)

  function DrawStateOf(r: VoxelResource): (s: DrawState)
    reads r`indexBuffer, r`indexStride, r`indexCount, r`vertexCount, r`effect
    ensures s.useIndex <==> r.indexBuffer.Some?
    ensures s.indexStride == r.indexStride && s.indexCount == r.indexCount
    ensures s.vertexCount == r.vertexCount && s.effect == r.effect
  {
    DrawState(r.indexBuffer.Some?, r.indexStride, r.indexCount, r.vertexCount, r.effect)
  }

  /** The draw states of a sequence of resources, element by element. */
  ghost function DrawStates(rs: seq<VoxelResource>): (ds: seq<DrawState>)
    reads set r | r in rs
    ensures |ds| == |rs|
    ensures forall i :: 0 <= i < |rs| ==> ds[i] == DrawStateOf(rs[i])
  {
    if rs == [] then [] else DrawStates(rs[..|rs| - 1]) + [DrawStateOf(rs[|rs| - 1])]
  }

  /** Resources whose draw states are, one by one, those of `ds` have draw states `ds`. */
  lemma DrawStatesAre(rs: seq<VoxelResource>, ds: seq<DrawState>)
    requires |ds| == |rs| && forall i :: 0 <= i < |rs| ==> DrawStateOf(rs[i]) == ds[i]
    ensures DrawStates(rs) == ds
  {
  }

  /** The resource has an index buffer whose stride names no index format. */
  predicate BadIndex(s: DrawState)
  {
    s.useIndex && IndexFormatOf(s.indexStride).None?
  }

  /** The sweep dereferences the effect unless it has failed on the index format first. */
  predicate EffectReady(s: DrawState)
  {
    s.effect.Some? || BadIndex(s)
  }

  /** Viewports `0 .. n - 1`, each an effect update followed by a draw of `count` elements from 0. */
  function Passes(e: EffectId, indexed: bool, count: nat, n: nat): seq<Command>
  {
    if n == 0 then [] else Passes(e, indexed, count, n - 1) + [UpdateEffect(e, n - 1), Draw(indexed, count, 0)]
  }

  /** The commands `voxelizeImpl` issues for one resource, or the error it raises. */
  function Sweep(s: DrawState): (r: Result<seq<Command>>)
    requires EffectReady(s)
    ensures r.Err? <==> s.useIndex && s.indexStride != 2 && s.indexStride != 4
    ensures r.Err? ==> r.error == UnknownIndexFormat
  {
    if BadIndex(s) then Err(UnknownIndexFormat)
    else
      var bind := if s.useIndex then [BindIndexBuffer(IndexFormatOf(s.indexStride).value)] else [];
      var count := if s.useIndex then s.indexCount else s.vertexCount;
      Ok(bind + [PrepareEffect(s.effect.value)] + Passes(s.effect.value, s.useIndex, count, 3))
  }

  /** The draw calls among `cmds`, in order. */
  function DrawsOf(cmds: seq<Command>): seq<Command>
  {
    if cmds == [] then []
    else
      var last := cmds[|cmds| - 1];
      DrawsOf(cmds[..|cmds| - 1]) + (if last.Draw? then [last] else [])
  }

  /** The viewports of the effect updates among `cmds`, in order. */
  function ViewportsOf(cmds: seq<Command>): seq<nat>
  {
    if cmds == [] then []
    else
      var last := cmds[|cmds| - 1];
      ViewportsOf(cmds[..|cmds| - 1]) + (if last.UpdateEffect? then [last.viewport] else [])
  }

  /** Neither effect registration nor effect cleaning appears in `cmds`. */
  predicate NoLifecycle(cmds: seq<Command>)
  {
    forall i :: 0 <= i < |cmds| ==> !cmds[i].InitEffect? && !cmds[i].CleanEffect?
  }

  lemma {:induction false} DrawsOfAppend(a: seq<Command>, b: seq<Command>)
    ensures DrawsOf(a + b) == DrawsOf(a) + DrawsOf(b)
    ensures ViewportsOf(a + b) == ViewportsOf(a) + ViewportsOf(b)
  {
    if b == [] {
      assert a + b == a;
    } else {
      var n := |b| - 1;
      assert (a + b)[..|a + b| - 1] == a + b[..n];
      DrawsOfAppend(a, b[..n]);
    }
  }

  /** Calls that are neither draws nor effect updates add nothing to either list. */
  lemma {:induction false} QuietCommands(cmds: seq<Command>)
    requires forall i :: 0 <= i < |cmds| ==> !cmds[i].Draw? && !cmds[i].UpdateEffect?
    ensures DrawsOf(cmds) == [] && ViewportsOf(cmds) == []
  {
    if cmds != [] {
      QuietCommands(cmds[..|cmds| - 1]);
    }
  }

  /** One viewport's pass adds one draw and one viewport. */
  lemma PassStep(e: EffectId, indexed: bool, count: nat, n: nat)
    ensures DrawsOf(Passes(e, indexed, count, n + 1))
      == DrawsOf(Passes(e, indexed, count, n)) + [Draw(indexed, count, 0)]
    ensures ViewportsOf(Passes(e, indexed, count, n + 1)) == ViewportsOf(Passes(e, indexed, count, n)) + [n]
  {
    var pass := [UpdateEffect(e, n), Draw(indexed, count, 0)];
    assert Passes(e, indexed, count, n + 1) == Passes(e, indexed, count, n) + pass;
    assert pass[..1] == [UpdateEffect(e, n)];
    assert pass[..1][..0] == [];
    assert DrawsOf(pass[..1]) == [] && ViewportsOf(pass[..1]) == [n];
    assert DrawsOf(pass) == [Draw(indexed, count, 0)] && ViewportsOf(pass) == [n];
    DrawsOfAppend(Passes(e, indexed, count, n), pass);
  }

  /** The three passes draw three times, through viewports 0, 1 and 2, and
      neither register nor clean an effect. */
  lemma ThreePasses(e: EffectId, indexed: bool, count: nat)
    ensures var d := Draw(indexed, count, 0);
      && DrawsOf(Passes(e, indexed, count, 3)) == [d, d, d]
      && ViewportsOf(Passes(e, indexed, count, 3)) == [0, 1, 2]
      && NoLifecycle(Passes(e, indexed, count, 3))
  {
    assert Passes(e, indexed, count, 0) == [];
    PassStep(e, indexed, count, 0);
    PassStep(e, indexed, count, 1);
    PassStep(e, indexed, count, 2);
  }

  /** One sweep of a resource: it fails exactly on an index buffer whose stride
      is neither 2 nor 4; otherwise it binds the index buffer exactly when there
      is one, and draws three times, through viewports 0, 1 and 2, the index
      count when indexed and the vertex count when not, from element 0. */
  lemma SweepShape(s: DrawState)
    requires EffectReady(s)
    ensures Sweep(s).Err? <==> s.useIndex && s.indexStride != 2 && s.indexStride != 4
    ensures Sweep(s).Err? ==> Sweep(s).error == UnknownIndexFormat
    ensures Sweep(s).Ok? ==>
      var d := Draw(s.useIndex, if s.useIndex then s.indexCount else s.vertexCount, 0);
      && DrawsOf(Sweep(s).value) == [d, d, d]
      && ViewportsOf(Sweep(s).value) == [0, 1, 2]
      && (Sweep(s).value[0].BindIndexBuffer? <==> s.useIndex)
      && NoLifecycle(Sweep(s).value)
  {
    if Sweep(s).Ok? {
      var e := s.effect.value;
      var count := if s.useIndex then s.indexCount else s.vertexCount;
      var head := (if s.useIndex then [BindIndexBuffer(IndexFormatOf(s.indexStride).value)] else [])
        + [PrepareEffect(e)];
      var passes := Passes(e, s.useIndex, count, 3);
      assert Sweep(s).value == head + passes;
      QuietCommands(head);
      ThreePasses(e, s.useIndex, count);
      DrawsOfAppend(head, passes);
    }
  }

  /** The commands issued and the outcome reached by sweeping a run of resources. */
  datatype SweepRun = SweepRun(cmds: seq<Command>, outcome: Outcome)

  /** The run after one more resource: nothing more once the run has failed. */
  function SweepStep(prev: SweepRun, s: DrawState): SweepRun
    requires prev.outcome.Pass? ==> EffectReady(s)
  {
    if prev.outcome.Fail? then prev
    else
      match Sweep(s)
      case Ok(cmds) => SweepRun(prev.cmds + cmds, Pass)
      case Err(e) => SweepRun(prev.cmds, Fail(e))
  }

  /** Every resource the loop reaches has an effect, or fails on its index
      format: only resources after the first bad index may lack one. */
  predicate SweepReady(ds: seq<DrawState>)
  {
    forall i :: 0 <= i < |ds| ==> EffectReady(ds[i]) || exists j :: 0 <= j < i && BadIndex(ds[j])
  }

  /** `voxelize`'s loop: sweep the resources in order, stopping at the first
      error. A run that passes met no bad index format. */
  function SweepAll(ds: seq<DrawState>): (run: SweepRun)
    requires SweepReady(ds)
    ensures run.outcome == Pass ==> forall i :: 0 <= i < |ds| ==> !BadIndex(ds[i])
  {
    if ds == [] then SweepRun([], Pass)
    else
      var n := |ds| - 1;
      SweepReadyPrefix(ds, n);
      SweepStep(SweepAll(ds[..n]), ds[n])
  }

  /** The resources before any point are ready when all of them are. */
  lemma SweepReadyPrefix(ds: seq<DrawState>, k: nat)
    requires SweepReady(ds) && k <= |ds|
    ensures SweepReady(ds[..k])
  {
    forall i | 0 <= i < k
      ensures EffectReady(ds[..k][i]) || exists j :: 0 <= j < i && BadIndex(ds[..k][j])
    {
      if !EffectReady(ds[i]) {
        var j :| 0 <= j < i && BadIndex(ds[j]);
        assert ds[..k][j] == ds[j];
      }
    }
  }

  /** A run over one more resource takes one more step. */
  lemma SweepAllSnoc(ds: seq<DrawState>, i: nat)
    requires SweepReady(ds)
    requires i < |ds|
    ensures SweepReady(ds[..i]) && SweepReady(ds[..i + 1])
    ensures SweepAll(ds[..i]).outcome.Pass? ==> EffectReady(ds[i])
    ensures SweepAll(ds[..i + 1]) == SweepStep(SweepAll(ds[..i]), ds[i])
  {
    SweepReadyPrefix(ds, i);
    SweepReadyPrefix(ds, i + 1);
    assert ds[..i + 1][..i] == ds[..i];
  }

  /** Once a prefix of the run has failed, the rest of the resources add nothing. */
  lemma {:induction false} SweepAllStops(ds: seq<DrawState>, k: nat)
    requires SweepReady(ds)
    requires k <= |ds| && SweepReady(ds[..k]) && SweepAll(ds[..k]).outcome.Fail?
    ensures SweepAll(ds) == SweepAll(ds[..k])
  {
    if k < |ds| {
      var n := |ds| - 1;
      assert ds[..n][..k] == ds[..k];
      SweepReadyPrefix(ds, n);
      SweepAllStops(ds[..n], k);
    } else {
      assert ds[..k] == ds;
    }
  }

  /** A run passes exactly when no resource has an index buffer with a bad
      stride, and then every resource's sweep has passed. */
  lemma {:induction false} SweepAllPasses(ds: seq<DrawState>)
    requires SweepReady(ds)
    ensures SweepAll(ds).outcome == Pass <==> forall i :: 0 <= i < |ds| ==> !BadIndex(ds[i])
    ensures SweepAll(ds).outcome == Pass ==> forall i :: 0 <= i < |ds| ==> EffectReady(ds[i]) && Sweep(ds[i]).Ok?
  {
    if ds != [] {
      var n := |ds| - 1;
      var init := ds[..n];
      SweepReadyPrefix(ds, n);
      SweepAllPasses(init);
      assert forall i :: 0 <= i < n ==> init[i] == ds[i];
    }
  }

  /** A run that passes draws three times per resource; the only error a run
      can end with is an unknown index format; and it never touches the
      effect registry. */
  lemma {:induction false} SweepAllOutcome(ds: seq<DrawState>)
    requires SweepReady(ds)
    ensures SweepAll(ds).outcome == Pass ==> |DrawsOf(SweepAll(ds).cmds)| == 3 * |ds|
    ensures SweepAll(ds).outcome.Fail? ==> SweepAll(ds).outcome.error == UnknownIndexFormat
    ensures NoLifecycle(SweepAll(ds).cmds)
  {
    if ds != [] {
      var n := |ds| - 1;
      SweepAllSnoc(ds, n);
      assert ds[..n + 1] == ds;
      var prev := SweepAll(ds[..n]);
      SweepAllOutcome(ds[..n]);
      if prev.outcome == Pass {
        SweepShape(ds[n]);
        if Sweep(ds[n]).Ok? {
          DrawsOfAppend(prev.cmds, Sweep(ds[n]).value);
        }
      }
    }
  }

  /** The extent of one grid axis: a float-to-integer conversion, which truncates. */
  function Extent(v: real, ratio: real): nat
    requires 0.0 <= v * ratio
  {
    (v * ratio).Floor
  }

  /** The range `prepare` returns: the box's size grown by two voxels on every axis. */
  function Range(b: Box, ratio: real): Vec3
    requires 0.0 < ratio
  {
    var s := Size(b);
    var ex := 2.0 / ratio;
    Vec3(s.x + ex, s.y + ex, s.z + ex)
  }

  /** The range of an ordered box is positive on every axis, so never the zero
      vector `voxelize` tests for, and every grid axis is the box's scaled size
      plus two voxels, truncated: at least two voxels. */
  lemma RangeGrid(b: Box, ratio: real)
    requires 0.0 < ratio && Ordered(b)
    ensures var r := Range(b, ratio);
      && r.x > 0.0 && r.y > 0.0 && r.z > 0.0
      && r != Vec3(0.0, 0.0, 0.0)
      && r.x * ratio == Size(b).x * ratio + 2.0
      && r.y * ratio == Size(b).y * ratio + 2.0
      && r.z * ratio == Size(b).z * ratio + 2.0
      && 2.0 <= r.x * ratio && 2.0 <= r.y * ratio && 2.0 <= r.z * ratio
      && 2 <= Extent(r.x, ratio) && 2 <= Extent(r.y, ratio) && 2 <= Extent(r.z, ratio)
  {
    var s := Size(b);
    var ex := 2.0 / ratio;
    assert ex * ratio == 2.0;
    assert 0.0 < ex;
    assert s.x >= 0.0 && s.y >= 0.0 && s.z >= 0.0;
    assert (s.x + ex) * ratio == s.x * ratio + ex * ratio;
    assert (s.y + ex) * ratio == s.y * ratio + ex * ratio;
    assert (s.z + ex) * ratio == s.z * ratio + ex * ratio;
    assert 0.0 <= s.x * ratio && 0.0 <= s.y * ratio && 0.0 <= s.z * ratio;
  }

  /** The boxes a sequence of resources will have after `prepare`, element by element. */
  ghost function PreparedBoxes(rs: seq<VoxelResource>): (bs: seq<Box>)
    reads set r | r in rs
    requires forall i :: 0 <= i < |rs| ==> rs[i].PrepareSafe()
    ensures |bs| == |rs|
    ensures forall i :: 0 <= i < |rs| ==> bs[i] == rs[i].PreparedBox()
  {
    if rs == [] then [] else PreparedBoxes(rs[..|rs| - 1]) + [rs[|rs| - 1].PreparedBox()]
  }

  /** Taking one resource out of a sequence takes one copy of it out of the multiset. */
  lemma RemoveOne(b: seq<VoxelResource>, k: nat, rest: seq<VoxelResource>)
    requires k < |b| && rest == b[..k] + b[k + 1..]
    ensures |rest| == |b| - 1
    ensures forall i :: 0 <= i < k ==> rest[i] == b[i]
    ensures forall i :: k <= i < |rest| ==> rest[i] == b[i + 1]
    ensures multiset(rest) == multiset(b) - multiset{b[k]}
  {
    assert b == b[..k] + [b[k]] + b[k + 1..];
  }

  /** A sequence that skips element k of another is that one less one copy of element k. */
  lemma Skip<T>(s: seq<T>, k: nat, rest: seq<T>)
    requires k < |s| && |rest| == |s| - 1
    requires forall i :: 0 <= i < k ==> rest[i] == s[i]
    requires forall i :: k <= i < |rest| ==> rest[i] == s[i + 1]
    ensures multiset(s) == multiset(rest) + multiset{s[k]}
  {
    assert rest == s[..k] + s[k + 1..];
    assert s == s[..k] + [s[k]] + s[k + 1..];
  }

  /** ... and takes its prepared box out of the prepared boxes. */
  lemma RemoveOneBox(b: seq<VoxelResource>, k: nat, rest: seq<VoxelResource>)
    requires k < |b| && |rest| == |b| - 1
    requires forall i :: 0 <= i < k ==> rest[i] == b[i]
    requires forall i :: k <= i < |rest| ==> rest[i] == b[i + 1]
    requires Preparing(b)
    ensures Preparing(rest)
    ensures multiset(PreparedBoxes(b)) == multiset(PreparedBoxes(rest)) + multiset{b[k].PreparedBox()}
  {
    PreparingRest(b, k, rest);
    var pr := PreparedBoxes(rest);
    var pb := PreparedBoxes(b);
    assert forall i :: 0 <= i < k ==> pr[i] == pb[i] by {
      forall i | 0 <= i < k
        ensures pr[i] == pb[i]
      {
        assert rest[i] == b[i];
      }
    }
    assert forall i :: k <= i < |pr| ==> pr[i] == pb[i + 1] by {
      forall i | k <= i < |pr|
        ensures pr[i] == pb[i + 1]
      {
        assert rest[i] == b[i + 1];
      }
    }
    Skip(pb, k, pr);
  }

  lemma PreparingRest(b: seq<VoxelResource>, k: nat, rest: seq<VoxelResource>)
    requires k < |b| && |rest| == |b| - 1
    requires forall i :: 0 <= i < k ==> rest[i] == b[i]
    requires forall i :: k <= i < |rest| ==> rest[i] == b[i + 1]
    requires Preparing(b)
    ensures Preparing(rest)
  {
    forall i | 0 <= i < |rest|
      ensures rest[i].PrepareSafe()
    {
      if i < k {
        assert rest[i] == b[i];
      } else {
        assert rest[i] == b[i + 1];
        assert b[i + 1].PrepareSafe();
      }
    }
  }

  /** Every resource in the sequence can be prepared. */
  predicate Preparing(rs: seq<VoxelResource>)
    reads set r | r in rs
  {
    forall i :: 0 <= i < |rs| ==> rs[i].PrepareSafe()
  }

  /** Reordering the resources reorders their prepared boxes. */
  lemma {:induction false} PreparedBoxesPermutation(a: seq<VoxelResource>, b: seq<VoxelResource>)
    requires multiset(a) == multiset(b)
    requires Preparing(a) && Preparing(b)
    ensures multiset(PreparedBoxes(a)) == multiset(PreparedBoxes(b))
  {
    if a == [] {
      assert |b| == |multiset(b)| == 0;
    } else {
      var n := |a| - 1;
      var x := a[n];
      assert x in multiset(b);
      var k :| 0 <= k < |b| && b[k] == x;
      assert a[..n] + a[n + 1..] == a[..n];
      var init, rest := a[..n], b[..k] + b[k + 1..];
      var y := x.PreparedBox();
      assert Preparing(init) && multiset(PreparedBoxes(a)) == multiset(PreparedBoxes(init)) + multiset{y}
        && multiset(init) == multiset(a) - multiset{x} by {
        RemoveOne(a, n, init);
        RemoveOneBox(a, n, init);
      }
      assert Preparing(rest) && multiset(PreparedBoxes(b)) == multiset(PreparedBoxes(rest)) + multiset{y}
        && multiset(rest) == multiset(b) - multiset{x} by {
        RemoveOne(b, k, rest);
        RemoveOneBox(b, k, rest);
      }
      assert multiset(init) == multiset(rest);
      PreparedBoxesPermutation(init, rest);
    }
  }

  /** The box `prepare` combines does not depend on the order of the resources. */
  lemma PreparedUnionPermutation(a: seq<VoxelResource>, b: seq<VoxelResource>)
    requires multiset(a) == multiset(b)
    requires forall i :: 0 <= i < |a| ==> a[i].PrepareSafe()
    requires forall i :: 0 <= i < |b| ==> b[i].PrepareSafe()
    ensures UnionAll(PreparedBoxes(a)) == UnionAll(PreparedBoxes(b))
  {
    PreparedBoxesPermutation(a, b);
    UnionAllPermutation(PreparedBoxes(a), PreparedBoxes(b));
  }

  /** The resources a possibly null array holds. */
  function Members(res: Option<seq<VoxelResource>>): set<VoxelResource>
  {
    if res.None? then {} else set r | r in res.value
  }

  /** Every resource in the array can be prepared, and its cached box is ordered. */
  predicate Preparable(res: Option<seq<VoxelResource>>)
    reads Members(res)
  {
    res.Some? ==> forall i :: 0 <= i < |res.value| ==>
      res.value[i].PrepareSafe() && Ordered(res.value[i].aabb)
  }

  /** A resource's prepared box is ordered when its cached box is. */
  lemma PreparedBoxOrdered(r: VoxelResource)
    requires r.PrepareSafe() && Ordered(r.aabb)
    ensures Ordered(r.PreparedBox())
  {
    if r.needCalSize && r.vertexBuffer.Some? {
      BoxOfOrdered(ScannedPositions(r.vertexBuffer.value.contents, r.vertexCount, r.vertexStride, r.positionOffset));
    }
  }

  /** Every resource of `rs` can be prepared, and `want` lists the boxes they would end with. */
  ghost predicate PreparesTo(rs: seq<VoxelResource>, want: seq<Box>)
    reads set r | r in rs
  {
    |want| == |rs| && forall j :: 0 <= j < |rs| ==> rs[j].PrepareSafe() && rs[j].PreparedBox() == want[j]
  }

  /** The state `prepare` leaves for a non-null array: every resource holds its
      prepared box from `boxes`, their union is ordered, and the output's grid is
      sized, in voxels of `ratio`, to that union grown by two voxels per axis,
      with the targets registered in `before` re-created, cleared to zero. */
  ghost predicate Prepared(output: VoxelOutput, rs: seq<VoxelResource>, boxes: seq<Box>,
                           before: map<nat, Uav>, ratio: real)
    reads output, set r | r in rs
    requires 0.0 < ratio
  {
    var box := UnionAll(boxes);
    var range := Range(box, ratio);
    && |boxes| == |rs|
    && (forall i :: 0 <= i < |rs| ==> rs[i].aabb == boxes[i])
    && Ordered(box)
    && output.Valid()
    && output.Resized(before, Extent(range.x, ratio), Extent(range.y, ratio), Extent(range.z, ratio))
  }

  /** `prepare`'s loop: prepare every resource in order and merge the boxes
      they end with. A resource listed twice is prepared twice, to the same box. */
  method PrepareResources(rs: seq<VoxelResource>) returns (aabb: Box)
    requires Preparable(Some(rs))
    modifies set r | r in rs`aabb
    ensures aabb == UnionAll(old(PreparedBoxes(rs))) && Ordered(aabb)
    ensures forall i :: 0 <= i < |rs| ==> rs[i].aabb == old(rs[i].PreparedBox())
  {
    ghost var want := PreparedBoxes(rs);
    forall j | 0 <= j < |rs|
      ensures Ordered(want[j])
    {
      PreparedBoxOrdered(rs[j]);
    }
    UnionAllOrdered(want);
    aabb := Null;
    for i := 0 to |rs|
      invariant aabb == UnionAll(want[..i])
      invariant PreparesTo(rs, want)
      invariant forall j :: 0 <= j < i ==> rs[j].aabb == want[j]
    {
      UnionAllSnoc(want, i);
      PrepareAt(rs, i, want);
      aabb := MergeBox(aabb, rs[i].aabb);
    }
    assert want[..|rs|] == want;
  }

  /** One pass of `prepare`'s loop: prepare resource i. Every resource still
      prepares to the same box, and the first i + 1 now hold theirs. */
  method PrepareAt(rs: seq<VoxelResource>, i: nat, ghost want: seq<Box>)
    requires i < |rs| && PreparesTo(rs, want)
    requires forall j :: 0 <= j < i ==> rs[j].aabb == want[j]
    modifies {rs[i]}`aabb
    ensures PreparesTo(rs, want)
    ensures forall j :: 0 <= j <= i ==> rs[j].aabb == want[j]
  {
    rs[i].Prepare();
    forall j | 0 <= j <= i
      ensures rs[j].aabb == want[j]
    {
      if rs[j] == rs[i] {
        assert want[j] == want[i];
      }
    }
  }

  /** The second half of `prepare`: grow the merged box by two voxels per axis
      into the range and size the output's grid to the range in voxels. */
  method SizeGrid(output: VoxelOutput, aabb: Box, ratio: real) returns (range: Vec3)
    requires output.Valid() && 0.0 < ratio && Ordered(aabb)
    modifies output
    ensures range == Range(aabb, ratio) && range != Vec3(0.0, 0.0, 0.0)
    ensures output.Valid()
    ensures output.Resized(old(output.uavs), Extent(range.x, ratio), Extent(range.y, ratio), Extent(range.z, ratio))
  {
    RangeGrid(aabb, ratio);
    range := Range(aabb, ratio);
    var width, height, depth := Extent(range.x, ratio), Extent(range.y, ratio), Extent(range.z, ratio);
    output.Prepare(width, height, depth);
  }

  class Voxelizer {
    var voxelSize: real
    var scale: real
    var effects: set<EffectId>
    var resources: seq<VoxelResource>
    var outputs: seq<VoxelOutput>
    /** Every rendering call made so far, oldest first. */
    var trace: seq<Command>

    /** Every registered effect has been initialised once more than it has been
        cleaned, and every other effect as often as it has been cleaned. */
    ghost predicate Valid()
      reads this
    {
      Balanced(trace, effects)
    }

    /** The grid scale: output voxels per unit of model space. */
    function Ratio(): real
      reads this
      requires voxelSize != 0.0
    {
      scale / voxelSize
    }

    /** A new voxelizer owns nothing and has made no calls. The header that
        initialises the voxel size and the scale is not part of this model,
        so both are given. */
    constructor (voxelSize: real, scale: real)
      ensures Valid()
      ensures this.voxelSize == voxelSize && this.scale == scale
      ensures effects == {} && resources == [] && outputs == [] && trace == []
    {
      this.voxelSize, this.scale := voxelSize, scale;
      effects, resources, outputs, trace := {}, [], [], [];
    }

    method SetVoxelSize(v: real)
      modifies this`voxelSize
      ensures voxelSize == v
    {
      voxelSize := v;
    }

    method SetScale(v: real)
      modifies this`scale
      ensures scale == v
    {
      scale := v;
    }

    /** `addEffect`: register the effect, initialising it only when it was not yet registered. */
    method AddEffect(e: EffectId)
      requires Valid()
      modifies this`effects, this`trace
      ensures Valid()
      ensures effects == old(effects) + {e}
      ensures trace == old(trace) + (if e in old(effects) then [] else [InitEffect(e)])
    {
      if e !in effects {
        BalancedPush(trace, effects, InitEffect(e));
        effects := effects + {e};
        trace := trace + [InitEffect(e)];
      }
    }

    /** `removeEffect`: clean and unregister the effect when it is registered; otherwise nothing. */
    method RemoveEffect(e: EffectId)
      requires Valid()
      modifies this`effects, this`trace
      ensures Valid()
      ensures effects == old(effects) - {e}
      ensures trace == old(trace) + (if e in old(effects) then [CleanEffect(e)] else [])
    {
      if e in effects {
        BalancedPush(trace, effects, CleanEffect(e));
        trace := trace + [CleanEffect(e)];
        effects := effects - {e};
      }
    }

    /** `~Voxelizer`: release the owned resources and outputs and clean every
        registered effect once, in some order. Afterwards every effect has been
        cleaned exactly as often as it was initialised. */
    method Destroy()
      requires Valid()
      modifies this`resources, this`outputs, this`effects, this`trace
      ensures Valid() && effects == {} && resources == [] && outputs == []
      ensures |old(trace)| <= |trace| && trace[..|old(trace)|] == old(trace)
      ensures forall c ::
        Occurrences(trace[|old(trace)|..], c) == if c.CleanEffect? && c.effect in old(effects) then 1 else 0
    {
      ghost var start := trace;
      var todo := effects;
      ghost var cleaned: set<EffectId> := {};
      assert trace[|start|..] == [];
      while todo != {}
        invariant todo !! cleaned && todo + cleaned == old(effects)
        invariant CleanedOnce(start, trace, cleaned)
        invariant Balanced(trace, todo)
        decreases todo
      {
        var e :| e in todo;
        BalancedPush(trace, todo, CleanEffect(e));
        CleanedOnceStep(start, trace, cleaned, e);
        trace := trace + [CleanEffect(e)];
        todo, cleaned := todo - {e}, cleaned + {e};
      }
      effects, resources, outputs := {}, [], [];
    }

    /** `createResource`: a new, empty resource, owned by the voxelizer. */
    method CreateResource() returns (r: VoxelResource)
      modifies this`resources
      ensures fresh(r) && resources == old(resources) + [r]
      ensures r.vertexBuffer == None && r.indexBuffer == None && r.effect == None
      ensures r.aabb == Null && !r.needCalSize
    {
      r := new VoxelResource();
      resources := resources + [r];
    }

    /** `createOutput`: a new output with no write targets, owned by the voxelizer. */
    method CreateOutput() returns (o: VoxelOutput)
      modifies this`outputs
      ensures fresh(o) && outputs == old(outputs) + [o]
      ensures o.Valid() && o.uavs == map[]
    {
      o := new VoxelOutput();
      outputs := outputs + [o];
    }

    /** `prepare`: for a null array, the zero vector and nothing else. Otherwise
        every resource is prepared in order, the union of their prepared boxes
        is grown by two voxels per axis into the range, and the output's grid
        is sized to the range in voxels. */
    method Prepare(output: VoxelOutput, res: Option<seq<VoxelResource>>) returns (range: Vec3)
      requires output.Valid() && voxelSize != 0.0 && 0.0 < Ratio()
      requires Preparable(res)
      modifies output, Members(res)`aabb
      ensures res.None? ==> range == Vec3(0.0, 0.0, 0.0) && unchanged(output)
      ensures res.Some? ==>
        && range == Range(UnionAll(old(PreparedBoxes(res.value))), Ratio()) && range != Vec3(0.0, 0.0, 0.0)
        && Prepared(output, res.value, old(PreparedBoxes(res.value)), old(output.uavs), Ratio())
      ensures res.Some? ==> DrawStates(res.value) == old(DrawStates(res.value))
    {
      if res.None? {
        return Vec3(0.0, 0.0, 0.0);
      }
      var ratio := Ratio();
      var rs := res.value;
      ghost var ds := DrawStates(rs);
      var aabb := PrepareResources(rs);
      range := SizeGrid(output, aabb, ratio);
      DrawStatesAre(rs, ds);
    }

    /** `voxelizeImpl`: bind the index buffer when there is one (failing on a
        stride that is neither 2 nor 4), prepare the effect, then for each of the
        three viewports update the effect and draw. The calls are those of `Sweep`. */
    method VoxelizeImpl(res: VoxelResource) returns (r: Outcome)
      requires Valid() && EffectReady(DrawStateOf(res))
      modifies this`trace
      ensures Valid()
      ensures Sweep(DrawStateOf(res)).Err? ==>
        r == Fail(Sweep(DrawStateOf(res)).error) && trace == old(trace)
      ensures Sweep(DrawStateOf(res)).Ok? ==>
        r == Pass && trace == old(trace) + Sweep(DrawStateOf(res)).value
    {
      ghost var s := DrawStateOf(res);
      var count := res.vertexCount;
      var useIndex := res.indexBuffer.Some?;
      ghost var head: seq<Command> := [];
      if useIndex {
        var format := IndexFormatOf(res.indexStride);
        if format.None? {
          return Fail(UnknownIndexFormat);
        }
        trace := trace + [BindIndexBuffer(format.value)];
        head := [BindIndexBuffer(format.value)];
        count := res.indexCount;
      }
      var e := res.effect.value;
      trace := trace + [PrepareEffect(e)];
      head := head + [PrepareEffect(e)];
      DrawPasses(e, useIndex, count);
      assert Sweep(s).value == head + Passes(e, useIndex, count, 3);
      assert trace == old(trace) + Sweep(s).value;
      SweepShape(s);
      BalancedAppend(old(trace), effects, Sweep(s).value);
      r := Pass;
    }

    /** The viewport loop of `voxelizeImpl`: for viewports 0, 1 and 2, update
        the effect and draw `count` elements from element 0, indexed or not. */
    method DrawPasses(e: EffectId, indexed: bool, count: nat)
      modifies this`trace
      ensures trace == old(trace) + Passes(e, indexed, count, 3)
    {
      var start := 0;
      for viewport := 0 to 3
        invariant trace == old(trace) + Passes(e, indexed, count, viewport)
      {
        trace := trace + [UpdateEffect(e, viewport)];
        if indexed {
          trace := trace + [Draw(true, count, start)];
        } else {
          trace := trace + [Draw(false, count, start)];
        }
      }
    }

    /** `voxelize`: fail when `prepare` returns the zero vector, which happens
        exactly for a null array; otherwise sweep the resources in order,
        stopping at the first that fails. */
    method Voxelize(output: VoxelOutput, res: Option<seq<VoxelResource>>) returns (r: Outcome)
      requires Valid() && output.Valid() && voxelSize != 0.0 && 0.0 < Ratio()
      requires Preparable(res)
      requires res.Some? ==> SweepReady(DrawStates(res.value))
      modifies this`trace, output, Members(res)`aabb
      ensures Valid()
      ensures res.None? ==> r == Fail(CannotVoxelize) && trace == old(trace) && unchanged(output)
      ensures res.Some? ==>
        var run := SweepAll(old(DrawStates(res.value)));
        r == run.outcome && trace == old(trace) + run.cmds
      ensures res.Some? ==>
        Prepared(output, res.value, old(PreparedBoxes(res.value)), old(output.uavs), Ratio())
    {
      var range := Prepare(output, res);
      if range == Vec3(0.0, 0.0, 0.0) {
        return Fail(CannotVoxelize);
      }
      r := SweepResources(res.value);
    }

    /** `voxelize`'s loop: sweep the resources in order; a sweep that fails ends the run. */
    method SweepResources(rs: seq<VoxelResource>) returns (r: Outcome)
      requires Valid()
      requires SweepReady(DrawStates(rs))
      modifies this`trace
      ensures Valid()
      ensures r == SweepAll(old(DrawStates(rs))).outcome
      ensures trace == old(trace) + SweepAll(old(DrawStates(rs))).cmds
    {
      ghost var ds := DrawStates(rs);
      ghost var start := trace;
      ghost var run := SweepRun([], Pass);
      assert ds[..0] == [];
      for i := 0 to |rs|
        invariant Valid()
        invariant run == SweepAll(ds[..i]) && run.outcome == Pass
        invariant trace == start + run.cmds
      {
        SweepAllSnoc(ds, i);
        var o := SweepNext(rs[i], start, run);
        if o.Fail? {
          SweepAllStops(ds, i + 1);
          return o;
        }
        run := SweepStep(run, ds[i]);
      }
      assert ds[..|rs|] == ds;
      r := Pass;
    }

    /** One pass of `voxelize`'s loop: sweep one more resource after a run
        that has passed so far. */
    method SweepNext(res: VoxelResource, ghost start: seq<Command>, ghost run: SweepRun) returns (o: Outcome)
      requires Valid() && EffectReady(DrawStateOf(res))
      requires run.outcome == Pass && trace == start + run.cmds
      modifies this`trace
      ensures Valid()
      ensures o == SweepStep(run, DrawStateOf(res)).outcome
      ensures trace == start + SweepStep(run, DrawStateOf(res)).cmds
    {
      o := VoxelizeImpl(res);
      if o.Pass? {
        ghost var cmds := Sweep(DrawStateOf(res)).value;
        assert start + run.cmds + cmds == start + (run.cmds + cmds);
      }
    }
  }

  /** How many times `c` occurs in `cmds`. */
  function Occurrences(cmds: seq<Command>, c: Command): nat
  {
    if cmds == [] then 0
    else Occurrences(cmds[..|cmds| - 1], c) + (if cmds[|cmds| - 1] == c then 1 else 0)
  }

  lemma {:induction false} OccurrencesAppend(a: seq<Command>, b: seq<Command>, c: Command)
    ensures Occurrences(a + b, c) == Occurrences(a, c) + Occurrences(b, c)
  {
    if b == [] {
      assert a + b == a;
    } else {
      var n := |b| - 1;
      assert (a + b)[..|a + b| - 1] == a + b[..n];
      OccurrencesAppend(a, b[..n], c);
    }
  }

  /** Every effect in `effects` is initialised in `trace` once more than it is
      cleaned, and every other effect as often as it is cleaned. */
  ghost predicate Balanced(trace: seq<Command>, effects: set<EffectId>)
  {
    forall e :: Occurrences(trace, InitEffect(e))
      == Occurrences(trace, CleanEffect(e)) + (if e in effects then 1 else 0)
  }

  /** Initialising an unregistered effect while registering it, or cleaning a
      registered one while unregistering it, keeps the balance. */
  lemma BalancedPush(trace: seq<Command>, effects: set<EffectId>, c: Command)
    requires Balanced(trace, effects)
    ensures c.InitEffect? && c.effect !in effects ==> Balanced(trace + [c], effects + {c.effect})
    ensures c.CleanEffect? && c.effect in effects ==> Balanced(trace + [c], effects - {c.effect})
  {
    assert [c][..0] == [];
    forall x: Command
      ensures Occurrences(trace + [c], x) == Occurrences(trace, x) + (if c == x then 1 else 0)
    {
      OccurrencesAppend(trace, [c], x);
    }
  }

  /** Calls with no registration or cleaning occur nowhere as either. */
  lemma {:induction false} QuietOccurrences(cmds: seq<Command>, e: EffectId)
    requires NoLifecycle(cmds)
    ensures Occurrences(cmds, InitEffect(e)) == 0 && Occurrences(cmds, CleanEffect(e)) == 0
  {
    if cmds != [] {
      QuietOccurrences(cmds[..|cmds| - 1], e);
    }
  }

  /** `trace` is `start` followed by one cleaning of each effect of `cleaned` and nothing else. */
  ghost predicate CleanedOnce(start: seq<Command>, trace: seq<Command>, cleaned: set<EffectId>)
  {
    && |start| <= |trace| && trace[..|start|] == start
    && forall c :: Occurrences(trace[|start|..], c) == if c.CleanEffect? && c.effect in cleaned then 1 else 0
  }

  /** Cleaning one more effect extends the run of cleanings. */
  lemma CleanedOnceStep(start: seq<Command>, trace: seq<Command>, cleaned: set<EffectId>, e: EffectId)
    requires CleanedOnce(start, trace, cleaned) && e !in cleaned
    ensures CleanedOnce(start, trace + [CleanEffect(e)], cleaned + {e})
  {
    var t := trace + [CleanEffect(e)];
    assert t[..|start|] == start;
    assert t[|start|..] == trace[|start|..] + [CleanEffect(e)];
    assert [CleanEffect(e)][..0] == [];
    forall c {
      OccurrencesAppend(trace[|start|..], [CleanEffect(e)], c);
    }
  }

  /** Appending calls with no registrations or cleanings keeps the balance. */
  lemma BalancedAppend(trace: seq<Command>, effects: set<EffectId>, cmds: seq<Command>)
    requires Balanced(trace, effects) && NoLifecycle(cmds)
    ensures Balanced(trace + cmds, effects)
  {
    forall e
      ensures Occurrences(trace + cmds, InitEffect(e)) == Occurrences(trace, InitEffect(e))
      ensures Occurrences(trace + cmds, CleanEffect(e)) == Occurrences(trace, CleanEffect(e))
    {
      QuietOccurrences(cmds, e);
      OccurrencesAppend(trace, cmds, InitEffect(e));
      OccurrencesAppend(trace, cmds, CleanEffect(e));
    }
  }
}
