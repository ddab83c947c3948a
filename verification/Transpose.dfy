/** The checks and the launch grouping of the block-wise KV cache transpose. */
module Transpose {
  import opened Lists

  /** A strided view [blocks, blockSize, headNum, headDim]: sizes and element strides. */
  datatype Cache = Cache(sizes: seq<nat>, strides: seq<nat>)

  /** The inner dimensions of a cache block. */
  datatype Dims = Dims(blockSize: nat, headNum: nat, headDim: nat)

  predicate Positive(d: Dims) { d.blockSize > 0 && d.headNum > 0 && d.headDim > 0 }

  function BlockLength(d: Dims): nat { d.headDim * d.headNum * d.blockSize }

  predicate Shaped(c: Cache, d: Dims) {
    |c.sizes| == |c.strides| == 4 && c.sizes[1..] == [d.blockSize, d.headNum, d.headDim]
  }

  /** An element position: block, row in the block, head, and place in the head. */
  datatype Index = Index(block: nat, row: nat, head: nat, dim: nat)

  predicate Inside(c: Cache, d: Dims, x: Index)
    requires Shaped(c, d)
  {
    x.block < c.sizes[0] && x.row < d.blockSize && x.head < d.headNum && x.dim < d.headDim
  }

  function Offset(c: Cache, d: Dims, x: Index): nat
    requires Shaped(c, d)
  {
    x.block * c.strides[0] + x.row * c.strides[1] + x.head * c.strides[2] + x.dim * c.strides[3]
  }

  /** The place of an element in a dense block. */
  function Dense(d: Dims, x: Index): nat { (x.row * d.headNum + x.head) * d.headDim + x.dim }

  // ----- the check

  function DenseStride(sizes: seq<nat>, dim: nat): nat
    requires |sizes| == 4 && dim <= 3
    decreases 3 - dim
  {
    if dim == 3 then 1 else DenseStride(sizes, dim + 1) * sizes[dim + 1]
  }

  predicate Accepted(c: Cache, d: Dims, ids: nat) {
    && Shaped(c, d)
    && (forall dim :: 1 <= dim <= 3 ==> c.sizes[dim] == 1 || c.strides[dim] == DenseStride(c.sizes, dim))
    && (c.sizes[0] <= 1 || c.strides[0] >= DenseStride(c.sizes, 0))
    && (c.sizes[0] > 0 || ids == 0)
  }

  method CheckCache(c: Cache, d: Dims, ids: nat) returns (ok: bool)
    requires |c.sizes| == |c.strides|
    ensures ok <==> Accepted(c, d, ids)
  {
    if !(|c.sizes| == 4 && c.sizes[1] == d.blockSize && c.sizes[2] == d.headNum && c.sizes[3] == d.headDim) {
      return false;
    }
    var denseStride, dim := 1, 3;
    while dim > 0
      invariant 0 <= dim <= 3 && denseStride == DenseStride(c.sizes, dim)
      invariant forall i :: dim < i <= 3 ==> c.sizes[i] == 1 || c.strides[i] == DenseStride(c.sizes, i)
    {
      if !(c.sizes[dim] == 1 || c.strides[dim] == denseStride) {
        return false;
      }
      denseStride := denseStride * c.sizes[dim];
      dim := dim - 1;
    }
    if !(c.sizes[0] <= 1 || c.strides[0] >= denseStride) {
      return false;
    }
    return c.sizes[0] > 0 || ids == 0;
  }

  lemma DenseStrides(c: Cache, d: Dims)
    requires Shaped(c, d)
    ensures DenseStride(c.sizes, 3) == 1 && DenseStride(c.sizes, 2) == d.headDim
    ensures DenseStride(c.sizes, 1) == d.headDim * d.headNum && DenseStride(c.sizes, 0) == BlockLength(d)
  {
    assert c.sizes[1] == c.sizes[1..][0] && c.sizes[2] == c.sizes[1..][1] && c.sizes[3] == c.sizes[1..][2];
    assert DenseStride(c.sizes, 2) == DenseStride(c.sizes, 3) * c.sizes[3];
    assert DenseStride(c.sizes, 1) == DenseStride(c.sizes, 2) * c.sizes[2];
  }

  // ----- what acceptance means

  lemma DenseBound(d: Dims, x: Index)
    requires x.row < d.blockSize && x.head < d.headNum && x.dim < d.headDim
    ensures Dense(d, x) < BlockLength(d)
  {
    RowMajorOrder(x.row, x.head, d.blockSize, 0, d.headNum);
    var i := x.row * d.headNum + x.head;
    RowMajorOrder(i, x.dim, d.blockSize * d.headNum, 0, d.headDim);
    assert d.blockSize * d.headNum * d.headDim == d.headDim * d.headNum * d.blockSize;
  }

  /** Inside a block, elements lie in the order of row, then head, then place in the head. */
  lemma DenseOrder(d: Dims, x: Index, y: Index)
    requires x.row < d.blockSize && x.head < d.headNum && x.dim < d.headDim
    requires y.row < d.blockSize && y.head < d.headNum && y.dim < d.headDim
    ensures Dense(d, x) < Dense(d, y) <==>
              x.row < y.row || (x.row == y.row && (x.head < y.head || (x.head == y.head && x.dim < y.dim)))
  {
    var i, j := x.row * d.headNum + x.head, y.row * d.headNum + y.head;
    if i < j { RowMajorOrder(i, x.dim, j, y.dim, d.headDim); }
    if j < i { RowMajorOrder(j, y.dim, i, x.dim, d.headDim); }
    if x.row < y.row { RowMajorOrder(x.row, x.head, y.row, y.head, d.headNum); }
    if y.row < x.row { RowMajorOrder(y.row, y.head, x.row, x.head, d.headNum); }
  }

  lemma DenseInjective(d: Dims, x: Index, y: Index)
    requires x.head < d.headNum && x.dim < d.headDim && y.head < d.headNum && y.dim < d.headDim
    requires Dense(d, x) == Dense(d, y)
    ensures x.row == y.row && x.head == y.head && x.dim == y.dim
  {
    var i, j := x.row * d.headNum + x.head, y.row * d.headNum + y.head;
    if i < j { RowMajorOrder(i, x.dim, j, y.dim, d.headDim); }
    if j < i { RowMajorOrder(j, y.dim, i, x.dim, d.headDim); }
    if x.row < y.row { RowMajorOrder(x.row, x.head, y.row, y.head, d.headNum); }
    if y.row < x.row { RowMajorOrder(y.row, y.head, x.row, x.head, d.headNum); }
  }

  /** Inside a block an accepted cache is dense, whatever the strides of singleton dimensions. */
  lemma AcceptedDense(c: Cache, d: Dims, ids: nat, x: Index)
    requires Accepted(c, d, ids) && Inside(c, d, x)
    ensures Offset(c, d, x) == x.block * c.strides[0] + Dense(d, x)
  {
    hide DenseStride, Dense, BlockLength;
    DenseStrides(c, d);
    Singleton(x.row, c.sizes[1], c.strides[1], d.headDim * d.headNum);
    Singleton(x.head, c.sizes[2], c.strides[2], d.headDim);
    Singleton(x.dim, c.sizes[3], c.strides[3], 1);
    DenseForm(d, x);
  }

  lemma DenseForm(d: Dims, x: Index)
    ensures Dense(d, x) == x.row * (d.headDim * d.headNum) + x.head * d.headDim + x.dim
  {
    var r, h, n, e := x.row, x.head, d.headNum, d.headDim;
    assert (r * n + h) * e == (r * n) * e + h * e;
    assert (r * n) * e == r * (e * n);
  }

  lemma Singleton(i: nat, size: nat, stride: nat, dense: nat)
    requires i < size && (size == 1 || stride == dense)
    ensures i * stride == i * dense
  {
    if size == 1 { assert i == 0; }
  }

  /** No two elements of an accepted cache share a place. */
  lemma AcceptedInjective(c: Cache, d: Dims, ids: nat, x: Index, y: Index)
    requires Accepted(c, d, ids) && Inside(c, d, x) && Inside(c, d, y) && Offset(c, d, x) == Offset(c, d, y)
    ensures x == y
  {
    hide Offset, Dense, DenseStride, BlockLength;
    AcceptedDense(c, d, ids, x);
    AcceptedDense(c, d, ids, y);
    DenseBound(d, x);
    DenseBound(d, y);
    DenseStrides(c, d);
    if x.block < y.block { RowMajorOrder(x.block, Dense(d, x), y.block, Dense(d, y), c.strides[0]); }
    if y.block < x.block { RowMajorOrder(y.block, Dense(d, y), x.block, Dense(d, x), c.strides[0]); }
    DenseInjective(d, x, y);
  }

  ghost predicate DenseBlocks(c: Cache, d: Dims)
    requires Shaped(c, d)
  {
    forall x :: Inside(c, d, x) ==> Offset(c, d, x) == x.block * c.strides[0] + Dense(d, x)
  }

  ghost predicate BlocksApart(c: Cache, d: Dims)
    requires Shaped(c, d)
  {
    forall x, y :: Inside(c, d, x) && Inside(c, d, y) && x.block < y.block ==> Offset(c, d, x) < Offset(c, d, y)
  }

  /** A cache without blocks is accepted exactly if no block is asked for and one block would be. */
  lemma EmptyAccepted(c: Cache, d: Dims, ids: nat)
    requires Shaped(c, d) && c.sizes[0] == 0
    ensures Accepted(c, d, ids) <==> ids == 0 && Accepted(c.(sizes := c.sizes[0 := 1]), d, ids)
  {
    var one := c.(sizes := c.sizes[0 := 1]);
    assert one.sizes[1..] == c.sizes[1..];
    DenseStrides(c, d);
    DenseStrides(one, d);
    hide DenseStride;
    assert forall dim :: 1 <= dim <= 3 ==> one.sizes[dim] == c.sizes[dim];
    assert DenseStride(one.sizes, 1) == DenseStride(c.sizes, 1) && DenseStride(one.sizes, 2) == DenseStride(c.sizes, 2);
  }

  /** The check accepts exactly the caches that are dense in each block and whose blocks do not run
      into each other. */
  lemma AcceptedExactly(c: Cache, d: Dims, ids: nat)
    requires Shaped(c, d) && Positive(d) && c.sizes[0] > 0
    ensures Accepted(c, d, ids) <==> DenseBlocks(c, d) && BlocksApart(c, d)
  {
    hide Offset, Dense;
    if Accepted(c, d, ids) {
      forall x | Inside(c, d, x) ensures Offset(c, d, x) == x.block * c.strides[0] + Dense(d, x) {
        AcceptedDense(c, d, ids, x);
      }
      forall x, y | Inside(c, d, x) && Inside(c, d, y) && x.block < y.block ensures Offset(c, d, x) < Offset(c, d, y) {
        AcceptedOrdered(c, d, ids, x, y);
      }
    }
    if DenseBlocks(c, d) && BlocksApart(c, d) { DenseAccepted(c, d, ids); }
  }

  lemma AcceptedOrdered(c: Cache, d: Dims, ids: nat, x: Index, y: Index)
    requires Accepted(c, d, ids) && Inside(c, d, x) && Inside(c, d, y) && x.block < y.block
    ensures Offset(c, d, x) < Offset(c, d, y)
  {
    hide Offset, Dense, DenseStride, BlockLength;
    AcceptedDense(c, d, ids, x);
    AcceptedDense(c, d, ids, y);
    DenseBound(d, x);
    DenseStrides(c, d);
    RowMajorOrder(x.block, Dense(d, x), y.block, Dense(d, y), c.strides[0]);
  }

  lemma DenseAccepted(c: Cache, d: Dims, ids: nat)
    requires Shaped(c, d) && Positive(d) && c.sizes[0] > 0 && DenseBlocks(c, d) && BlocksApart(c, d)
    ensures Accepted(c, d, ids)
  {
    hide Offset, Dense, DenseStride, BlockLength;
    DenseStrides(c, d);
    UnitOffsets(c, d);
    LastOfBlock(d);
    var last := Index(0, d.blockSize - 1, d.headNum - 1, d.headDim - 1);
    assert Inside(c, d, last);
    assert d.headDim > 1 ==> Inside(c, d, Index(0, 0, 0, 1));
    assert d.headNum > 1 ==> Inside(c, d, Index(0, 0, 1, 0));
    assert d.blockSize > 1 ==> Inside(c, d, Index(0, 1, 0, 0));
    assert c.sizes[0] > 1 ==> Inside(c, d, Index(1, 0, 0, 0));
  }

  lemma UnitOffsets(c: Cache, d: Dims)
    requires Shaped(c, d)
    ensures Offset(c, d, Index(0, 0, 0, 1)) == c.strides[3] && Dense(d, Index(0, 0, 0, 1)) == 1
    ensures Offset(c, d, Index(0, 0, 1, 0)) == c.strides[2] && Dense(d, Index(0, 0, 1, 0)) == d.headDim
    ensures Offset(c, d, Index(0, 1, 0, 0)) == c.strides[1] && Dense(d, Index(0, 1, 0, 0)) == d.headDim * d.headNum
    ensures Offset(c, d, Index(1, 0, 0, 0)) == c.strides[0] && Dense(d, Index(1, 0, 0, 0)) == 0
  {
  }

  lemma LastOfBlock(d: Dims)
    requires Positive(d)
    ensures Dense(d, Index(0, d.blockSize - 1, d.headNum - 1, d.headDim - 1)) == BlockLength(d) - 1
  {
    var b, h, e := d.blockSize, d.headNum, d.headDim;
    OneLess(b, h);
    OneLess(b * h, e);
    Reorder(b, h, e);
  }

  lemma OneLess(a: nat, x: nat)
    requires a > 0
    ensures (a - 1) * x + x == a * x
  {
  }

  lemma Reorder(a: nat, b: nat, c: nat)
    ensures (a * b) * c == c * b * a
  {
  }

  /** A singleton block axis never advances: its stride may be replaced. */
  function BlockStride(c: Cache, d: Dims): nat
    requires Shaped(c, d)
  {
    if c.sizes[0] > 1 then c.strides[0] else d.blockSize * d.headNum * d.headDim
  }

  lemma NormalizedStride(c: Cache, d: Dims, ids: nat, x: Index)
    requires Accepted(c, d, ids) && Inside(c, d, x)
    ensures Offset(c, d, x) == x.block * BlockStride(c, d) + Dense(d, x)
    ensures BlockStride(c, d) >= BlockLength(d)
    ensures c.sizes[0] == 1 ==> BlockStride(c, d) == BlockLength(d)
  {
    hide Offset, Dense, DenseStride;
    AcceptedDense(c, d, ids, x);
    DenseStrides(c, d);
    assert d.blockSize * d.headNum * d.headDim == BlockLength(d);
    hide BlockLength;
    Singleton(x.block, c.sizes[0], c.strides[0], BlockStride(c, d));
  }

  // ----- grouping the layers into launches

  /** One fused launch: layers begin..end with the same pair of strides. */
  datatype Launch = Launch(begin: nat, end: nat, kStride: nat, vStride: nat)

  datatype LayerLaunch = LayerLaunch(layer: nat, kStride: nat, vStride: nat)

  /** What a fused launch does, layer by layer. */
  function Layers(l: Launch): seq<LayerLaunch>
    requires l.begin <= l.end
  {
    seq(l.end - l.begin, i requires 0 <= i < l.end - l.begin => LayerLaunch(l.begin + i, l.kStride, l.vStride))
  }

  function AllLayers(launches: seq<Launch>): seq<LayerLaunch>
    requires forall i :: 0 <= i < |launches| ==> launches[i].begin <= launches[i].end
  {
    if launches == [] then [] else AllLayers(launches[..|launches| - 1]) + Layers(launches[|launches| - 1])
  }

  /** One launch per layer. */
  function PerLayer(k: seq<nat>, v: seq<nat>, n: nat): (r: seq<LayerLaunch>)
    requires n <= |k| && n <= |v|
    ensures |r| == n
  {
    seq(n, i requires 0 <= i < n => LayerLaunch(i, k[i], v[i]))
  }

  /** Neighbouring launches meet and differ in a stride, so no two could be fused. */
  ghost predicate Maximal(launches: seq<Launch>) {
    forall i, j :: 0 <= i < |launches| && j == i + 1 < |launches| ==>
      && launches[i].end == launches[j].begin
      && (launches[i].kStride != launches[j].kStride || launches[i].vStride != launches[j].vStride)
  }

  lemma NoLayers(k: seq<nat>, v: seq<nat>)
    ensures AllLayers([]) == PerLayer(k, v, 0)
  {
  }

  lemma PerLayerMore(k: seq<nat>, v: seq<nat>, l: Launch)
    requires |k| == |v| && l.begin < l.end <= |k|
    requires forall i :: l.begin <= i < l.end ==> k[i] == l.kStride && v[i] == l.vStride
    ensures PerLayer(k, v, l.end) == PerLayer(k, v, l.begin) + Layers(l)
  {
  }

  lemma AllLayersMore(launches: seq<Launch>, l: Launch)
    requires (forall i :: 0 <= i < |launches| ==> launches[i].begin <= launches[i].end) && l.begin <= l.end
    ensures AllLayers(launches + [l]) == AllLayers(launches) + Layers(l)
  {
    assert (launches + [l])[..|launches|] == launches;
  }

  /** All layers of a launch have its strides. */
  ghost predicate Fused(l: Launch, k: seq<nat>, v: seq<nat>) {
    l.end <= |k| == |v| && forall i :: l.begin <= i < l.end ==> k[i] == l.kStride && v[i] == l.vStride
  }

  /** Fused launches do what one launch per layer would do, each layer once and in order. */
  method GroupLayers(k: seq<nat>, v: seq<nat>) returns (launches: seq<Launch>)
    requires |k| == |v|
    ensures forall i :: 0 <= i < |launches| ==> launches[i].begin < launches[i].end
    ensures AllLayers(launches) == PerLayer(k, v, |k|) && Maximal(launches)
    ensures forall i :: 0 <= i < |launches| ==> Fused(launches[i], k, v)
  {
    hide AllLayers, PerLayer, Layers;
    NoLayers(k, v);
    launches := [];
    var begin := 0;
    while begin < |k|
      invariant begin <= |k| && forall i :: 0 <= i < |launches| ==> launches[i].begin < launches[i].end
      invariant AllLayers(launches) == PerLayer(k, v, begin) && Maximal(launches)
      invariant forall i :: 0 <= i < |launches| ==> Fused(launches[i], k, v)
      invariant launches != [] ==> launches[|launches| - 1].end == begin
      invariant launches != [] && begin < |k| ==>
                  launches[|launches| - 1].kStride != k[begin] || launches[|launches| - 1].vStride != v[begin]
    {
      var kStride, vStride, end := k[begin], v[begin], begin + 1;
      while end < |k| && k[end] == kStride && v[end] == vStride
        invariant begin < end <= |k| && forall i :: begin <= i < end ==> k[i] == kStride && v[i] == vStride
      {
        end := end + 1;
      }
      var l := Launch(begin, end, kStride, vStride);
      PerLayerMore(k, v, l);
      AllLayersMore(launches, l);
      launches := launches + [l];
      begin := end;
    }
  }

  // ----- the whole operation

  datatype Option<T> = None | Some(value: T)

  predicate WellSized(caches: seq<Cache>) { forall i :: 0 <= i < |caches| ==> |caches[i].sizes| == |caches[i].strides| }

  /** Both caches of a layer pass the check and have as many blocks. */
  predicate LayerAccepted(k: Cache, v: Cache, d: Dims, ids: nat) {
    Accepted(k, d, ids) && Accepted(v, d, ids) && k.sizes[0] == v.sizes[0]
  }

  /** What is asked of the arguments before any layer is looked at. */
  /** The stride addresses every element of the cache; a single block counts as dense. */
  ghost predicate Addresses(c: Cache, d: Dims, stride: nat) {
    && Shaped(c, d) && (c.sizes[0] == 1 ==> stride == BlockLength(d))
    && forall x :: Inside(c, d, x) ==> Offset(c, d, x) == x.block * stride + Dense(d, x)
  }

  function BlockStrides(caches: seq<Cache>, d: Dims): (r: seq<nat>)
    requires forall i :: 0 <= i < |caches| ==> Shaped(caches[i], d)
    ensures |r| == |caches|
  {
    seq(|caches|, i requires 0 <= i < |caches| => BlockStride(caches[i], d))
  }

  /** Each layer is in exactly one launch, in order, and the launch's strides address its caches. */
  ghost predicate Launched(k: seq<Cache>, v: seq<Cache>, d: Dims, launches: seq<Launch>) {
    && |k| == |v| && (forall i :: 0 <= i < |launches| ==> launches[i].begin < launches[i].end <= |k|)
    && (launches == [] <==> k == [])
    && (launches != [] ==> launches[0].begin == 0 && launches[|launches| - 1].end == |k|)
    && Maximal(launches)
    && forall i, layer :: 0 <= i < |launches| && launches[i].begin <= layer < launches[i].end ==>
         Addresses(k[layer], d, launches[i].kStride) && Addresses(v[layer], d, launches[i].vStride)
  }

  lemma SingleStride(c: Cache, d: Dims)
    requires Shaped(c, d)
    ensures c.sizes[0] == 1 ==> BlockStride(c, d) == BlockLength(d)
  {
    assert d.blockSize * d.headNum * d.headDim == BlockLength(d);
  }

  lemma StrideAddresses(c: Cache, d: Dims, ids: nat)
    requires Accepted(c, d, ids)
    ensures Addresses(c, d, BlockStride(c, d))
  {
    hide Offset, Dense, BlockStride, Accepted;
    assert Shaped(c, d) by { AcceptedShaped(c, d, ids); }
    SingleStride(c, d);
    forall x | Inside(c, d, x) ensures Offset(c, d, x) == x.block * BlockStride(c, d) + Dense(d, x) {
      NormalizedStride(c, d, ids, x);
    }
  }

  lemma AcceptedShaped(c: Cache, d: Dims, ids: nat)
    requires Accepted(c, d, ids)
    ensures Shaped(c, d)
  {
  }

  /** What the launches begin and end with follows from the layers they stand for. */
  lemma {:induction false} LaunchEnds(launches: seq<Launch>, k: seq<nat>, v: seq<nat>, n: nat)
    requires n <= |k| == |v| && forall i :: 0 <= i < |launches| ==> launches[i].begin < launches[i].end
    requires AllLayers(launches) == PerLayer(k, v, n)
    ensures launches == [] <==> n == 0
    ensures launches != [] ==> launches[0].begin == 0 && launches[|launches| - 1].end == n
  {
    if launches != [] {
      var front, last := launches[..|launches| - 1], launches[|launches| - 1];
      var m := |AllLayers(front)|;
      assert AllLayers(launches)[..m] == AllLayers(front) && AllLayers(launches)[m..] == Layers(last);
      assert PerLayer(k, v, n)[..m] == PerLayer(k, v, m);
      LaunchEnds(front, k, v, m);
      assert Layers(last)[0] == PerLayer(k, v, n)[m];
      assert last.begin == m && |Layers(last)| == n - m;
      assert front != [] ==> front[0] == launches[0];
    }
  }

  /** The checks and launches of a call; None stands for a raised error. */
  method TransposeByBlock(k: seq<Cache>, v: seq<Cache>, d: Dims, ids: nat, splitNum: int, layerNum: int)
    returns (r: Option<seq<Launch>>)
    requires WellSized(k) && WellSized(v)
    ensures r.Some? <==>
              && |k| == layerNum && |v| == layerNum
              && d.blockSize > 0 && d.headNum > 0 && d.headDim > 0 && splitNum > 0 && d.headNum % splitNum == 0
              && forall i :: 0 <= i < |k| ==>
                   Accepted(k[i], d, ids) && Accepted(v[i], d, ids) && k[i].sizes[0] == v[i].sizes[0]
    ensures r.Some? && ids == 0 ==> r.value == []
    ensures r.Some? && ids > 0 ==> Launched(k, v, d, r.value)
  {
    hide Accepted, BlockStride, Addresses, AllLayers, PerLayer, Maximal, Fused;
    if layerNum < 0 || |k| != layerNum || |v| != layerNum || !Positive(d) || splitNum <= 0
        || d.headNum % splitNum != 0 {
      return None;
    }
    if layerNum == 0 {
      assert Launched(k, v, d, []) by { NothingLaunched(d); }
      return Some([]);
    }
    for i := 0 to layerNum
      invariant forall j :: 0 <= j < i ==> LayerAccepted(k[j], v[j], d, ids)
    {
      var kOk := CheckCache(k[i], d, ids);
      var vOk := CheckCache(v[i], d, ids);
      if !kOk || !vOk {
        return None;
      }
      AcceptedShaped(k[i], d, ids);
      AcceptedShaped(v[i], d, ids);
      if k[i].sizes[0] != v[i].sizes[0] {
        return None;
      }
    }
    if ids == 0 {
      return Some([]);
    }
    forall i | 0 <= i < |k| ensures Shaped(k[i], d) && Shaped(v[i], d) {
      AcceptedShaped(k[i], d, ids);
      AcceptedShaped(v[i], d, ids);
    }
    assert AllLayersAccepted(k, v, d, ids);
    var launches := GroupLayers(BlockStrides(k, d), BlockStrides(v, d));
    LaunchesServe(k, v, d, ids, launches);
    return Some(launches);
  }

  lemma NothingLaunched(d: Dims)
    ensures Launched([], [], d, [])
  {
  }

  ghost predicate AllLayersAccepted(k: seq<Cache>, v: seq<Cache>, d: Dims, ids: nat) {
    |k| == |v| && forall i :: 0 <= i < |k| ==> Shaped(k[i], d) && Shaped(v[i], d) && LayerAccepted(k[i], v[i], d, ids)
  }

  /** A fused launch addresses the caches of each of its layers. */
  lemma LaunchServes(k: seq<Cache>, v: seq<Cache>, d: Dims, ids: nat, l: Launch, layer: nat)
    requires AllLayersAccepted(k, v, d, ids) && Fused(l, BlockStrides(k, d), BlockStrides(v, d))
             && l.begin <= layer < l.end
    ensures layer < |k| && Addresses(k[layer], d, l.kStride) && Addresses(v[layer], d, l.vStride)
  {
    hide Accepted, Addresses, BlockStride;
    StrideAddresses(k[layer], d, ids);
    StrideAddresses(v[layer], d, ids);
    assert BlockStrides(k, d)[layer] == l.kStride && BlockStrides(v, d)[layer] == l.vStride;
  }

  lemma LaunchesServe(k: seq<Cache>, v: seq<Cache>, d: Dims, ids: nat, launches: seq<Launch>)
    requires AllLayersAccepted(k, v, d, ids) && Maximal(launches)
    requires forall i :: 0 <= i < |launches| ==> launches[i].begin < launches[i].end
    requires AllLayers(launches) == PerLayer(BlockStrides(k, d), BlockStrides(v, d), |k|)
    requires forall i :: 0 <= i < |launches| ==> Fused(launches[i], BlockStrides(k, d), BlockStrides(v, d))
    ensures Launched(k, v, d, launches)
  {
    hide Accepted, Addresses, AllLayers, PerLayer, Maximal, BlockStride;
    LaunchEnds(launches, BlockStrides(k, d), BlockStrides(v, d), |k|);
    forall i, layer | 0 <= i < |launches| && launches[i].begin <= layer < launches[i].end
      ensures launches[i].end <= |k| && Addresses(k[layer], d, launches[i].kStride)
              && Addresses(v[layer], d, launches[i].vStride)
    {
      LaunchServes(k, v, d, ids, launches[i], layer);
    }
  }
}
