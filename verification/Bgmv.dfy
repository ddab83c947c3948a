/** The BGMV expand kernel: y[t] += W[lora(t)] x[t] on a slice of y, over exact numbers.

    The kernel multiplies a tile of weights by a repeated copy of x and folds the products with
    reductions that add groups of eight or adjacent pairs, in place. */
module Bgmv {
  import opened Lists

  const REPEAT: int := 64
  const W_TILE: int := 8192
  const Y_TILE: int := 4096

  predicate IsRank(rank: int) { rank == 8 || rank == 16 || rank == 32 || rank == 64 }

  /** Outputs produced by one full weight tile. */
  function TileOutputs(rank: int): nat
    requires IsRank(rank)
  {
    W_TILE / REPEAT * (REPEAT / rank)
  }

  lemma TileShape(rank: int)
    requires IsRank(rank)
    ensures TileOutputs(rank) * rank == W_TILE && Y_TILE % TileOutputs(rank) == 0 && TileOutputs(rank) > 0
    ensures rank == 8 ==> TileOutputs(rank) == 1024
    ensures rank == 16 ==> TileOutputs(rank) == 512
    ensures rank == 32 ==> TileOutputs(rank) == 256
    ensures rank == 64 ==> TileOutputs(rank) == 128
  {
  }

  // ----- sums

  /** s[from] + ... + s[from + n - 1]. */
  function Sum(s: seq<real>, from: nat, n: nat): real
    requires from + n <= |s|
  {
    if n == 0 then 0.0 else Sum(s, from, n - 1) + s[from + n - 1]
  }

  /** x[0] * w[from] + ... + x[n - 1] * w[from + n - 1]: the plain dot product. */
  function Dot(x: seq<real>, w: seq<real>, from: nat, n: nat): real
    requires from + n <= |w| && n <= |x|
  {
    if n == 0 then 0.0 else Dot(x, w, from, n - 1) + x[n - 1] * w[from + n - 1]
  }

  lemma {:induction false} SumSplits(s: seq<real>, from: nat, m: nat, n: nat)
    requires from + m + n <= |s|
    ensures Sum(s, from, m + n) == Sum(s, from, m) + Sum(s, from + m, n)
  {
    if n > 0 { SumSplits(s, from, m, n - 1); }
  }

  /** b[j] is the sum of the j-th group of g elements of s. */
  ghost predicate FoldedAt(s: seq<real>, g: nat, b: seq<real>, j: nat) {
    j < |b| && j * g + g <= |s| && b[j] == Sum(s, j * g, g)
  }

  lemma PairSum(b: seq<real>, j: nat)
    requires 2 * j + 2 <= |b|
    ensures Sum(b, 2 * j, 2) == b[2 * j] + b[2 * j + 1]
  {
    assert Sum(b, 2 * j, 1) == Sum(b, 2 * j, 0) + b[2 * j];
  }

  lemma PairIndex(j: nat, g: nat)
    ensures (2 * j) * g + g == (2 * j + 1) * g && j * (2 * g) == (2 * j) * g && j * 2 == 2 * j
  {
  }

  /** Folding pairs of sums gives sums over twice as many elements. */
  lemma PairFold(s: seq<real>, g: nat, b: seq<real>, c: seq<real>, j: nat)
    requires FoldedAt(s, g, b, 2 * j) && FoldedAt(s, g, b, 2 * j + 1) && FoldedAt(b, 2, c, j)
    ensures FoldedAt(s, 2 * g, c, j)
  {
    hide Sum;
    PairIndex(j, g);
    SumSplits(s, (2 * j) * g, g, g);
    PairSum(b, j);
  }

  /** Folding eight sums gives sums over eight times as many elements. */
  lemma {:induction false} EightFold(s: seq<real>, b: seq<real>, c: seq<real>, j: nat)
    requires (forall i :: 8 * j <= i < 8 * j + 8 ==> FoldedAt(s, 8, b, i)) && FoldedAt(b, 8, c, j)
    ensures FoldedAt(s, 64, c, j)
  {
    assert FoldedAt(s, 8, b, 8 * j + 7);
    EightSums(s, b, j, 8);
  }

  lemma {:induction false} EightSums(s: seq<real>, b: seq<real>, j: nat, n: nat)
    requires n <= 8 && 8 * j + 8 <= |b| && 64 * j + 64 <= |s| && forall i :: 8 * j <= i < 8 * j + 8 ==>
               FoldedAt(s, 8, b, i)
    ensures Sum(b, 8 * j, n) == Sum(s, 64 * j, 8 * n)
  {
    if n > 0 {
      EightSums(s, b, j, n - 1);
      SumSplits(s, 64 * j, 8 * (n - 1), 8);
      assert FoldedAt(s, 8, b, 8 * j + (n - 1));
    }
  }

  // ----- the vector operations

  /** The sum of the j-th group of g elements. */
  function GroupSum(s: seq<real>, j: nat, g: nat): real {
    if j * g + g <= |s| then Sum(s, j * g, g) else 0.0
  }

  /** dst with the sums of the first `count` groups of src put in from `at` on. */
  function Folded(dst: seq<real>, at: nat, src: seq<real>, g: nat, count: nat): (r: seq<real>)
    ensures |r| == |dst|
  {
    seq(|dst|, i requires 0 <= i < |dst| => if at <= i < at + count then GroupSum(src, i - at, g) else dst[i])
  }

  lemma FoldedMeans(dst: seq<real>, at: nat, src: seq<real>, g: nat, count: nat, j: nat)
    requires g >= 1 && at + count <= |dst| && count * g <= |src| && j < count
    ensures FoldedAt(src, g, Folded(dst, at, src, g, count)[at..], j)
  {
    GroupBound(j, count, g);
    var r := Folded(dst, at, src, g, count);
    hide Folded, Sum;
    assert r[at..][j] == r[at + j];
    FoldedEntry(dst, at, src, g, count, j);
  }

  lemma FoldedEntry(dst: seq<real>, at: nat, src: seq<real>, g: nat, count: nat, j: nat)
    requires at + count <= |dst| && j < count
    ensures Folded(dst, at, src, g, count)[at + j] == GroupSum(src, j, g)
  {
    hide GroupSum;
  }

  /** BlockReduceSum (g = 8) and PairReduceSum (g = 2): fold groups of g, front to back.  In place
      it is safe because a sum is written behind everything still to be read. */
  method Reduce(dst: array<real>, at: nat, src: array<real>, g: nat, count: nat)
    requires g >= 1 && at + count <= dst.Length && count * g <= src.Length && (dst == src ==> at == 0)
    modifies dst
    ensures dst[..] == Folded(old(dst[..]), at, old(src[..]), g, count)
  {
    ghost var s, d := src[..], dst[..];
    for j := 0 to count
      invariant forall i :: 0 <= i < j ==> dst[at + i] == GroupSum(s, i, g)
      invariant forall i :: 0 <= i < dst.Length && !(at <= i < at + j) ==> dst[i] == d[i]
      invariant forall i :: j <= i < src.Length ==> src[i] == s[i]
    {
      GroupBound(j, count, g);
      var sum := 0.0;
      for k := 0 to g
        invariant sum == Sum(s, j * g, k)
      {
        assert j * g + k >= j;
        sum := sum + src[j * g + k];
      }
      dst[at + j] := sum;
    }
    forall i | 0 <= i < dst.Length ensures dst[i] == Folded(d, at, s, g, count)[i] {
      if at <= i < at + count { assert dst[at + (i - at)] == GroupSum(s, i - at, g); }
    }
  }

  lemma GroupBound(j: nat, count: nat, g: nat)
    requires j < count && g >= 1
    ensures j * g + g <= count * g && j * g >= j
  {
    RowMajorOrder(j, g - 1, count, 0, g);
    assert j * g >= j * 1;
  }

  // ----- one tile of weights

  lemma ResidueInRank(o: nat, r: nat, rank: int)
    requires IsRank(rank) && r < rank
    ensures (o * rank + r) % rank == r
  {
    var e := o * rank + r;
    var q, m := e / rank, e % rank;
    assert q * rank + m == e && q >= 0;
    if q < o { RowMajorOrder(q, m, o, r, rank); }
    if o < q { RowMajorOrder(o, r, q, m, rank); }
  }

  lemma ResidueInRepeat(e: nat, rank: int)
    requires IsRank(rank)
    ensures (e % REPEAT) % rank == e % rank
  {
    if rank == 8 {} else if rank == 16 {} else if rank == 32 {} else {}
  }

  /** p holds the products of the weights from `base` on with x, repeated. */
  ghost predicate Products(x: seq<real>, w: seq<real>, rank: int, base: nat, p: seq<real>, n: nat)
    requires IsRank(rank) && |x| == rank
  {
    n <= |p| && base + n <= |w| && forall e :: 0 <= e < n ==> p[e] == x[e % rank] * w[base + e]
  }

  lemma {:induction false} ProductSum(x: seq<real>, w: seq<real>, rank: int, base: nat, p: seq<real>, n: nat, o: nat,
                                      k: nat)
    requires IsRank(rank) && |x| == rank && Products(x, w, rank, base, p, n) && k <= rank && o * rank + rank <= n
    ensures Sum(p, o * rank, k) == Dot(x, w, base + o * rank, k)
  {
    if k > 0 {
      ProductSum(x, w, rank, base, p, n, o, k - 1);
      ResidueInRank(o, k - 1, rank);
      var e := o * rank + (k - 1);
      assert p[e] == x[e % rank] * w[base + e];
    }
  }

  function CeilDiv(a: nat, b: nat): nat
    requires b > 0
  {
    (a + b - 1) / b
  }

  function PairRepeats(n: nat): nat { CeilDiv(n * 8, REPEAT) }

  ghost predicate Repeated(x: seq<real>, xDup: seq<real>, rank: int)
    requires IsRank(rank) && |x| == rank
  {
    |xDup| == REPEAT && forall e :: 0 <= e < REPEAT ==> xDup[e] == x[e % rank]
  }

  /** tmp with the products of 64 * n weights and the repeated x put in. */
  function Scaled(x: seq<real>, w: seq<real>, rank: int, base: nat, n: nat, tmp: seq<real>): (r: seq<real>)
    requires IsRank(rank) && |x| == rank && base + n * REPEAT <= |w|
    ensures |r| == |tmp|
  {
    seq(|tmp|, e requires 0 <= e < |tmp| => if e < n * REPEAT then x[e % rank] * w[base + e] else tmp[e])
  }

  lemma ScaledProducts(x: seq<real>, w: seq<real>, rank: int, base: nat, n: nat, tmp: seq<real>)
    requires IsRank(rank) && |x| == rank && base + n * REPEAT <= |w| && n * REPEAT <= |tmp|
    ensures Products(x, w, rank, base, Scaled(x, w, rank, base, n, tmp), n * REPEAT)
  {
  }

  method CopyInW(w: seq<real>, base: nat, count: nat, tmp: array<real>)
    requires count <= tmp.Length && base + count <= |w|
    modifies tmp
    ensures tmp[..] == w[base..base + count] + old(tmp[count..])
  {
    for e := 0 to count
      invariant forall i :: 0 <= i < e ==> tmp[i] == w[base + i]
      invariant forall i :: e <= i < tmp.Length ==> tmp[i] == old(tmp[i])
    {
      tmp[e] := w[base + e];
    }
  }

  /** Multiply by the register, over and over. */
  method MultiplyBy(xDup: array<real>, count: nat, tmp: array<real>)
    requires xDup != tmp && xDup.Length == REPEAT && count <= tmp.Length
    modifies tmp
    ensures forall e :: 0 <= e < tmp.Length ==> tmp[e] == if e < count then xDup[e % REPEAT] * old(tmp[e])
            else old(tmp[e])
  {
    for k := 0 to count
      invariant forall e :: 0 <= e < tmp.Length ==> tmp[e] == if e < k then xDup[e % REPEAT] * old(tmp[e])
                else old(tmp[e])
    {
      tmp[k] := xDup[k % REPEAT] * tmp[k];
    }
  }

  /** Copy a run of 64 * n weights and multiply it by the repeated x. */
  method Multiply(x: seq<real>, xDup: array<real>, w: seq<real>, rank: int, base: nat, n: nat, tmp: array<real>)
    requires IsRank(rank) && |x| == rank && xDup != tmp && Repeated(x, xDup[..], rank)
    requires n * REPEAT <= tmp.Length && base + n * REPEAT <= |w|
    modifies tmp
    ensures tmp[..] == Scaled(x, w, rank, base, n, old(tmp[..]))
  {
    hide Scaled;
    ghost var t0 := tmp[..];
    CopyInW(w, base, n * REPEAT, tmp);
    ghost var t1 := tmp[..];
    MultiplyBy(xDup, n * REPEAT, tmp);
    ScaledFrom(x, xDup[..], w, rank, base, n, t0, t1, tmp[..]);
  }

  lemma ScaledFrom(x: seq<real>, dup: seq<real>, w: seq<real>, rank: int, base: nat, n: nat, t0: seq<real>,
                   t1: seq<real>, t2: seq<real>)
    requires IsRank(rank) && |x| == rank && Repeated(x, dup, rank) && base + n * REPEAT <= |w|
             && n * REPEAT <= |t0| == |t1| == |t2|
    requires t1 == w[base..base + n * REPEAT] + t0[n * REPEAT..]
    requires forall e :: 0 <= e < |t2| ==> t2[e] == if e < n * REPEAT then dup[e % REPEAT] * t1[e] else t1[e]
    ensures t2 == Scaled(x, w, rank, base, n, t0)
  {
    hide Repeated;
    forall e | 0 <= e < |t2| ensures t2[e] == Scaled(x, w, rank, base, n, t0)[e] {
      DupAt(x, dup, rank, e);
      if e < n * REPEAT { assert t1[e] == w[base..base + n * REPEAT][e] == w[base + e]; }
    }
  }

  lemma DupAt(x: seq<real>, xDup: seq<real>, rank: int, e: nat)
    requires IsRank(rank) && |x| == rank && Repeated(x, xDup, rank)
    ensures 0 <= e % REPEAT < |xDup| && 0 <= e % rank < |x| && xDup[e % REPEAT] == x[e % rank]
  {
    ResidueInRepeat(e, rank);
  }

  /** The buffers of a core: weights and products, and one tile of outputs.  What is not written keeps
      what an earlier tile or token left there. */
  datatype Local = Local(tmp: seq<real>, out: seq<real>)

  predicate Sized(l: Local) { |l.tmp| == W_TILE && |l.out| == Y_TILE }

  lemma PairBounds(n: nat)
    requires n <= W_TILE / REPEAT
    ensures n <= 8 * PairRepeats(n) && PairRepeats(n) <= 16 && PairRepeats(n) <= n
  {
  }

  /** The reductions of each rank, one after the other. */
  function CascadeOf(rank: int, n: nat, l: Local, progress: nat): (r: Local)
    ensures |r.tmp| == |l.tmp| && |r.out| == |l.out|
  {
    var pairs := PairRepeats(n);
    if rank == 8 then Local(l.tmp, Folded(l.out, progress, l.tmp, 8, n * 8))
    else
      var b := Folded(l.tmp, 0, l.tmp, 8, n * 8);
      if rank == 16 then Local(b, Folded(l.out, progress, b, 2, pairs * 32))
      else if rank == 32 then
        var c := Folded(b, 0, b, 2, pairs * 32);
        Local(c, Folded(l.out, progress, c, 2, (pairs + 1) / 2 * 32))
      else Local(b, Folded(l.out, progress, b, 8, pairs * 8))
  }

  method Cascade(rank: int, n: nat, tmp: array<real>, y: array<real>, progress: nat)
    requires IsRank(rank) && n <= W_TILE / REPEAT && tmp.Length == W_TILE && tmp != y
    requires progress + TileOutputs(rank) <= y.Length
    modifies tmp, y
    ensures Local(tmp[..], y[..]) == CascadeOf(rank, n, Local(old(tmp[..]), old(y[..])), progress)
  {
    hide Folded;
    TileShape(rank);
    PairBounds(n);
    var pairs := PairRepeats(n);
    if rank == 8 {
      Reduce(y, progress, tmp, 8, n * 8);
    } else if rank == 16 {
      Reduce(tmp, 0, tmp, 8, n * 8);
      Reduce(y, progress, tmp, 2, pairs * 32);
    } else if rank == 32 {
      Reduce(tmp, 0, tmp, 8, n * 8);
      Reduce(tmp, 0, tmp, 2, pairs * 32);
      Reduce(y, progress, tmp, 2, (pairs + 1) / 2 * 32);
    } else {
      Reduce(tmp, 0, tmp, 8, n * 8);
      Reduce(y, progress, tmp, 8, pairs * 8);
    }
  }

  /** Eights, then pairs: runs of sixteen. */
  lemma PairUp(s: seq<real>, n: nat, j: nat)
    requires n <= W_TILE / REPEAT && |s| == W_TILE && j * 16 + 16 <= n * REPEAT
    ensures var b := Folded(s, 0, s, 8, n * 8); FoldedAt(s, 16, Folded(b, 0, b, 2, PairRepeats(n) * 32), j)
  {
    hide FoldedAt, Folded;
    PairBounds(n);
    var b := Folded(s, 0, s, 8, n * 8);
    var c := Folded(b, 0, b, 2, PairRepeats(n) * 32);
    assert b[0..] == b && c[0..] == c;
    FoldedMeans(s, 0, s, 8, n * 8, 2 * j);
    FoldedMeans(s, 0, s, 8, n * 8, 2 * j + 1);
    FoldedMeans(b, 0, b, 2, PairRepeats(n) * 32, j);
    PairFold(s, 8, b, c, j);
  }

  /** The cascade of each rank leaves the sum of each run of `rank` products. */
  lemma CascadeFolds(rank: int, n: nat, l: Local, progress: nat, o: nat)
    requires IsRank(rank) && n <= W_TILE / REPEAT && |l.tmp| == W_TILE && progress + TileOutputs(rank) <= |l.out|
    requires o * rank + rank <= n * REPEAT
    ensures FoldedAt(l.tmp, rank, CascadeOf(rank, n, l, progress).out[progress..], o)
  {
    hide FoldedAt, Folded;
    TileShape(rank);
    PairBounds(n);
    var pairs, out, b := PairRepeats(n), CascadeOf(rank, n, l, progress).out[progress..],
        Folded(l.tmp, 0, l.tmp, 8, n * 8);
    assert b[0..] == b;
    if rank == 8 {
      FoldedMeans(l.out, progress, l.tmp, 8, n * 8, o);
    } else if rank == 16 {
      FoldedMeans(l.tmp, 0, l.tmp, 8, n * 8, 2 * o);
      FoldedMeans(l.tmp, 0, l.tmp, 8, n * 8, 2 * o + 1);
      FoldedMeans(l.out, progress, b, 2, pairs * 32, o);
      PairFold(l.tmp, 8, b, out, o);
    } else if rank == 32 {
      var c := Folded(b, 0, b, 2, pairs * 32);
      assert c[0..] == c;
      PairUp(l.tmp, n, 2 * o);
      PairUp(l.tmp, n, 2 * o + 1);
      FoldedMeans(l.out, progress, c, 2, (pairs + 1) / 2 * 32, o);
      PairFold(l.tmp, 16, c, out, o);
    } else {
      forall i | 8 * o <= i < 8 * o + 8 ensures FoldedAt(l.tmp, 8, b, i) { FoldedMeans(l.tmp, 0, l.tmp, 8, n * 8, i); }
      FoldedMeans(l.out, progress, b, 8, pairs * 8, o);
      EightFold(l.tmp, b, out, o);
    }
  }

  /** One run of 64 * n weights from `base` on: outputs `progress` onwards of the output tile. */
  function TileOf(x: seq<real>, w: seq<real>, rank: int, base: nat, n: nat, l: Local, progress: nat): (r: Local)
    requires IsRank(rank) && |x| == rank && base + n * REPEAT <= |w|
    ensures |r.tmp| == |l.tmp| && |r.out| == |l.out|
  {
    CascadeOf(rank, n, l.(tmp := Scaled(x, w, rank, base, n, l.tmp)), progress)
  }

  method ComputeTile(x: seq<real>, xDup: array<real>, w: seq<real>, rank: int, base: nat, n: nat, tmp: array<real>,
                     y: array<real>, progress: nat)
    requires IsRank(rank) && |x| == rank && xDup != tmp && xDup != y && tmp != y && Repeated(x, xDup[..], rank)
    requires n <= W_TILE / REPEAT && tmp.Length == W_TILE && base + n * REPEAT <= |w|
    requires progress + TileOutputs(rank) <= y.Length
    modifies tmp, y
    ensures Local(tmp[..], y[..]) == TileOf(x, w, rank, base, n, Local(old(tmp[..]), old(y[..])), progress)
  {
    hide CascadeOf, Scaled, Repeated;
    Multiply(x, xDup, w, rank, base, n, tmp);
    Cascade(rank, n, tmp, y, progress);
  }

  /** A run of weights yields plain dot products and leaves earlier outputs alone. */
  lemma TileComputes(x: seq<real>, w: seq<real>, rank: int, base: nat, n: nat, l: Local, progress: nat)
    requires IsRank(rank) && |x| == rank && n <= W_TILE / REPEAT && |l.tmp| == W_TILE && base + n * REPEAT <= |w|
    requires progress + TileOutputs(rank) <= |l.out|
    ensures var r := TileOf(x, w, rank, base, n, l, progress);
            && (forall o :: 0 <= o && o * rank + rank <= n * REPEAT ==>
                  progress + o < |r.out| && r.out[progress + o] == Dot(x, w, base + o * rank, rank))
            && forall i :: 0 <= i < progress ==> r.out[i] == l.out[i]
  {
    var p := Scaled(x, w, rank, base, n, l.tmp);
    var r := TileOf(x, w, rank, base, n, l, progress);
    ScaledProducts(x, w, rank, base, n, l.tmp);
    CascadeLeaves(rank, n, l.(tmp := p), progress);
    hide Scaled, CascadeOf, Products;
    forall o | 0 <= o && o * rank + rank <= n * REPEAT
      ensures progress + o < |r.out| && r.out[progress + o] == Dot(x, w, base + o * rank, rank)
    {
      CascadeFolds(rank, n, l.(tmp := p), progress, o);
      ProductSum(x, w, rank, base, p, n * REPEAT, o, rank);
    }
  }

  lemma CascadeLeaves(rank: int, n: nat, l: Local, progress: nat)
    requires progress <= |l.out|
    ensures forall i :: 0 <= i < progress ==> CascadeOf(rank, n, l, progress).out[i] == l.out[i]
  {
  }

  // ----- one token

  /** Full weight tiles per output tile. */
  function Streams(rank: int): nat
    requires IsRank(rank)
  {
    TileShape(rank);
    Y_TILE / TileOutputs(rank)
  }

  /** Output o of weight tile j of output tile i. */
  lemma TilePlace(rank: int, i: nat, j: nat, o: nat)
    requires IsRank(rank)
    ensures (i * Streams(rank) + j) * W_TILE + o * rank == (i * Y_TILE + (j * TileOutputs(rank) + o)) * rank
  {
    TileShape(rank);
    if rank == 8 {} else if rank == 16 {} else if rank == 32 {} else {}
  }

  /** Which tile an output lies in. */
  lemma TileSplit(rank: int, o: nat, tiles: nat)
    requires IsRank(rank) && tiles * TileOutputs(rank) <= o
    ensures var p := o - tiles * TileOutputs(rank); p * rank == o * rank - tiles * W_TILE
  {
    TileShape(rank);
    if rank == 8 {} else if rank == 16 {} else if rank == 32 {} else {}
  }

  /** Fill one vector register with copies of x. */
  method CopyInX(x: seq<real>, rank: int, xDup: array<real>)
    requires IsRank(rank) && |x| == rank && xDup.Length == REPEAT
    modifies xDup
    ensures Repeated(x, xDup[..], rank)
  {
    var i := 0;
    ghost var m := 0;
    while i < REPEAT
      invariant 0 <= i <= REPEAT && m >= 0 && i == m * rank
      invariant forall e :: 0 <= e < i ==> xDup[e] == x[e % rank]
    {
      WholeCopies(rank, m);
      for j := 0 to rank
        invariant forall e :: 0 <= e < i + j ==> xDup[e] == x[e % rank]
      {
        ResidueInRank(m, j, rank);
        xDup[i + j] := x[j];
      }
      i, m := i + rank, m + 1;
    }
  }

  lemma WholeCopies(rank: int, m: nat)
    requires IsRank(rank) && m * rank < REPEAT
    ensures m * rank + rank <= REPEAT && (m + 1) * rank == m * rank + rank
  {
    if rank == 8 {} else if rank == 16 {} else if rank == 32 {} else {}
  }

  /** Local output o of the output tile that starts at `first` is right. */
  ghost predicate Correct(x: seq<real>, w: seq<real>, rank: int, first: nat, y: seq<real>, o: nat)
    requires IsRank(rank) && |x| == rank
  {
    o < |y| && (first + o) * rank + rank <= |w| && y[o] == Dot(x, w, (first + o) * rank, rank)
  }

  ghost predicate CorrectUpTo(x: seq<real>, w: seq<real>, rank: int, first: nat, y: seq<real>, n: int)
    requires IsRank(rank) && |x| == rank
  {
    forall o :: 0 <= o < n ==> Correct(x, w, rank, first, y, o)
  }

  /** One more run of n repeats of weight tile j extends the right outputs. */
  lemma TileDone(x: seq<real>, w: seq<real>, rank: int, i: nat, j: nat, n: nat, before: seq<real>, after: seq<real>,
                 outputs: int)
    requires IsRank(rank) && |x| == rank && n <= W_TILE / REPEAT && |before| == |after| == Y_TILE
    requires CorrectUpTo(x, w, rank, i * Y_TILE, before, j * TileOutputs(rank))
    requires (i * Streams(rank) + j) * W_TILE + n * REPEAT <= |w| && (j + 1) * TileOutputs(rank) <= Y_TILE
    requires forall o :: 0 <= o && o * rank + rank <= n * REPEAT ==>
               j * TileOutputs(rank) + o < |after|
               && after[j * TileOutputs(rank) + o] == Dot(x, w, (i * Streams(rank) + j) * W_TILE + o * rank, rank)
    requires forall o :: 0 <= o < j * TileOutputs(rank) ==> after[o] == before[o]
    requires outputs * rank <= j * W_TILE + n * REPEAT
    ensures CorrectUpTo(x, w, rank, i * Y_TILE, after, outputs)
  {
    hide Dot;
    forall o | 0 <= o < outputs ensures Correct(x, w, rank, i * Y_TILE, after, o) {
      if o >= j * TileOutputs(rank) {
        var p := o - j * TileOutputs(rank);
        TileSplit(rank, o, j);
        TilePlace(rank, i, j, p);
        OneMore(o, outputs, rank);
      } else {
        assert Correct(x, w, rank, i * Y_TILE, before, o);
      }
    }
  }

  lemma OneMore(o: nat, n: nat, rank: nat)
    requires o < n
    ensures o * rank + rank <= n * rank
  {
    if rank > 0 { RowMajorOrder(o, rank - 1, n, 0, rank); }
  }

  lemma WholeTile(rank: int, j: nat)
    requires IsRank(rank)
    ensures (j + 1) * TileOutputs(rank) == j * TileOutputs(rank) + TileOutputs(rank)
    ensures (j + 1) * TileOutputs(rank) * rank == j * W_TILE + W_TILE
  {
    TileShape(rank);
    if rank == 8 {} else if rank == 16 {} else if rank == 32 {} else {}
  }

  lemma TileFits(rank: int, i: nat, j: nat, tiles: nat, length: nat)
    requires IsRank(rank) && j < tiles <= Streams(rank) && (i * Streams(rank) + tiles) * W_TILE <= length
    ensures j * TileOutputs(rank) + TileOutputs(rank) <= Y_TILE
    ensures (i * Streams(rank) + j) * W_TILE + W_TILE <= length
  {
    TileShape(rank);
    if rank == 8 {} else if rank == 16 {} else if rank == 32 {} else {}
  }

  /** The buffers after the first j weight tiles of output tile i. */
  function TilesOf(x: seq<real>, w: seq<real>, rank: int, i: nat, j: nat, l: Local): (r: Local)
    requires IsRank(rank) && |x| == rank && (i * Streams(rank) + j) * W_TILE <= |w|
    ensures |r.tmp| == |l.tmp| && |r.out| == |l.out|
    decreases j
  {
    if j == 0 then l
    else
      assert (i * Streams(rank) + (j - 1)) * W_TILE + W_TILE == (i * Streams(rank) + j) * W_TILE;
      TileOf(x, w, rank, (i * Streams(rank) + (j - 1)) * W_TILE, W_TILE / REPEAT, TilesOf(x, w, rank, i, j - 1, l),
             (j - 1) * TileOutputs(rank))
  }

  lemma TilesStep(x: seq<real>, w: seq<real>, rank: int, i: nat, j: nat, l: Local)
    requires IsRank(rank) && |x| == rank && (i * Streams(rank) + j) * W_TILE + W_TILE <= |w|
    ensures (i * Streams(rank) + (j + 1)) * W_TILE <= |w|
    ensures TilesOf(x, w, rank, i, j + 1, l)
            == TileOf(x, w, rank, (i * Streams(rank) + j) * W_TILE, W_TILE / REPEAT, TilesOf(x, w, rank, i, j, l),
                      j * TileOutputs(rank))
  {
    hide TileOf;
  }

  lemma {:induction false} TilesCorrect(x: seq<real>, w: seq<real>, rank: int, i: nat, j: nat, l: Local)
    requires IsRank(rank) && |x| == rank && j <= Streams(rank) && (i * Streams(rank) + j) * W_TILE <= |w| && Sized(l)
    ensures CorrectUpTo(x, w, rank, i * Y_TILE, TilesOf(x, w, rank, i, j, l).out, j * TileOutputs(rank))
    decreases j
  {
    hide Dot, Correct, TileOutputs, Streams, TileOf;
    if j > 0 {
      TileFits(rank, i, j - 1, j, |w|);
      TilesCorrect(x, w, rank, i, j - 1, l);
      var before := TilesOf(x, w, rank, i, j - 1, l);
      TilesStep(x, w, rank, i, j - 1, l);
      TileComputes(x, w, rank, (i * Streams(rank) + (j - 1)) * W_TILE, W_TILE / REPEAT, before,
                   (j - 1) * TileOutputs(rank));
      WholeTile(rank, j - 1);
      TileDone(x, w, rank, i, j - 1, W_TILE / REPEAT, before.out, TilesOf(x, w, rank, i, j, l).out,
               j * TileOutputs(rank));
    } else {
      NoTiles(rank);
    }
  }

  lemma NoTiles(rank: int)
    requires IsRank(rank)
    ensures 0 * TileOutputs(rank) == 0
  {
  }

  method FillTiles(x: seq<real>, xDup: array<real>, w: seq<real>, rank: int, i: nat, tiles: nat, tmp: array<real>,
                   y: array<real>)
    requires IsRank(rank) && |x| == rank && xDup != tmp && xDup != y && tmp != y && Repeated(x, xDup[..], rank)
    requires tmp.Length == W_TILE && y.Length == Y_TILE && tiles <= Streams(rank)
    requires (i * Streams(rank) + tiles) * W_TILE <= |w|
    modifies tmp, y
    ensures Local(tmp[..], y[..]) == TilesOf(x, w, rank, i, tiles, Local(old(tmp[..]), old(y[..])))
  {
    ghost var l := Local(tmp[..], y[..]);
    TilesStart(x, w, rank, i, tiles, l);
    hide TileOf, TileOutputs, Streams, Repeated, TilesOf;
    for j := 0 to tiles
      invariant Repeated(x, xDup[..], rank) && (i * Streams(rank) + j) * W_TILE <= |w|
      invariant Local(tmp[..], y[..]) == TilesOf(x, w, rank, i, j, l)
    {
      TileFits(rank, i, j, tiles, |w|);
      TilesStep(x, w, rank, i, j, l);
      ComputeTile(x, xDup, w, rank, (i * Streams(rank) + j) * W_TILE, W_TILE / REPEAT, tmp, y, j * TileOutputs(rank));
    }
  }

  lemma TilesStart(x: seq<real>, w: seq<real>, rank: int, i: nat, tiles: nat, l: Local)
    requires IsRank(rank) && |x| == rank && (i * Streams(rank) + tiles) * W_TILE <= |w|
    ensures (i * Streams(rank) + 0) * W_TILE <= |w| && TilesOf(x, w, rank, i, 0, l) == l
  {
  }

  /** The outputs whose weights fill whole repeats. */
  predicate Covered(rank: int, hidden: nat, o: nat) { o * rank + rank <= hidden * rank / REPEAT * REPEAT }

  lemma CoveredExactly(rank: int, hidden: nat)
    requires IsRank(rank)
    ensures (forall o :: 0 <= o < hidden ==> Covered(rank, hidden, o)) <==> hidden * rank % REPEAT == 0
  {
    if hidden * rank % REPEAT == 0 {
      forall o | 0 <= o < hidden ensures Covered(rank, hidden, o) { OneMore(o, hidden, rank); }
    } else {
      var o := hidden - 1;
      assert o * rank + rank == hidden * rank;
      assert !Covered(rank, hidden, o);
    }
  }

  /** Local buffers of a core. */
  class Buffers {
    const xDup: array<real>
    const tmp: array<real>
    const yLocal: array<real>

    ghost predicate Valid() {
      xDup.Length == REPEAT && tmp.Length == W_TILE && yLocal.Length == Y_TILE && xDup != tmp && xDup != yLocal
          && tmp != yLocal
    }

    ghost function Contents(): Local
      reads tmp, yLocal
    {
      Local(tmp[..], yLocal[..])
    }

    constructor ()
      ensures Valid() && fresh(xDup) && fresh(tmp) && fresh(yLocal)
    {
      xDup := new real[REPEAT];
      tmp := new real[W_TILE];
      yLocal := new real[Y_TILE];
    }
  }

  /** y with `gain` added from `at` on. */
  function Plus(y: seq<real>, at: nat, gain: seq<real>): (r: seq<real>)
    ensures |r| == |y|
  {
    seq(|y|, i requires 0 <= i < |y| => if at <= i < at + |gain| then y[i] + gain[i - at] else y[i])
  }

  lemma PlusMore(y: seq<real>, at: nat, gain: seq<real>, more: seq<real>)
    ensures Plus(Plus(y, at, gain), at + |gain|, more) == Plus(y, at, gain + more)
  {
  }

  lemma PlusNone(y: seq<real>, at: nat)
    ensures Plus(y, at, []) == y
  {
  }

  /** Add the old outputs to the first `count` local results, where the sums stay, and copy them out. */
  method AddOut(y: array<real>, at: nat, count: nat, yLocal: array<real>)
    requires y != yLocal && at + count <= y.Length && count <= yLocal.Length
    modifies y, yLocal
    ensures y[..] == Plus(old(y[..]), at, old(yLocal[..count]))
    ensures yLocal[..] == Plus(old(yLocal[..]), 0, old(y[at..at + count]))
  {
    ghost var y0, out := y[..], yLocal[..];
    for o := 0 to count
      invariant y[..] == y0
      invariant forall i :: 0 <= i < yLocal.Length ==> yLocal[i] == if i < o then out[i] + y0[at + i] else out[i]
    {
      yLocal[o] := yLocal[o] + y[at + o];
    }
    ghost var sums := yLocal[..];
    for o := 0 to count
      invariant yLocal[..] == sums
      invariant forall i :: 0 <= i < y.Length ==> y[i] == if at <= i < at + o then sums[i - at] else y0[i]
    {
      y[at + o] := yLocal[o];
    }
  }

  /** Repeats of the partial weight tile of the last output tile. */
  function TailRepeats(rank: int, rest: nat): nat
    requires IsRank(rank)
  {
    rest * rank % W_TILE / REPEAT
  }

  /** Outputs of the last output tile that whole repeats produce. */
  function TailOutputs(rank: int, rest: nat): nat
    requires IsRank(rank)
  {
    (rest * rank / W_TILE * W_TILE + TailRepeats(rank, rest) * REPEAT) / rank
  }

  lemma TailCovered(rank: int, hidden: nat, o: nat)
    requires IsRank(rank) && hidden / Y_TILE * Y_TILE <= o && Covered(rank, hidden, o)
    ensures o - hidden / Y_TILE * Y_TILE < TailOutputs(rank, hidden % Y_TILE)
  {
    var tiles, rest := hidden / Y_TILE, hidden % Y_TILE;
    var p, r := o - tiles * Y_TILE, rest * rank;
    var whole, part := r / W_TILE, r % W_TILE;
    ByRank(rank, tiles, rest, o);
    WholeRepeats(tiles * rank * (Y_TILE / REPEAT), r);
    WholeRepeats(whole * (W_TILE / REPEAT), part);
    BelowQuotient(p, rank, r / REPEAT * REPEAT);
  }

  lemma WholeRepeats(c: nat, b: nat)
    ensures (REPEAT * c + b) / REPEAT * REPEAT == REPEAT * c + b / REPEAT * REPEAT
  {
  }

  lemma ByRank(rank: int, tiles: nat, rest: nat, o: nat)
    requires IsRank(rank) && tiles * Y_TILE <= o
    ensures (tiles * Y_TILE + rest) * rank == REPEAT * (tiles * rank * (Y_TILE / REPEAT)) + rest * rank
    ensures o * rank == (o - tiles * Y_TILE) * rank + REPEAT * (tiles * rank * (Y_TILE / REPEAT))
  {
    if rank == 8 {} else if rank == 16 {} else if rank == 32 {} else {}
  }

  lemma BelowQuotient(p: nat, rank: int, k: nat)
    requires IsRank(rank) && p * rank + rank <= k
    ensures p < k / rank
  {
    if rank == 8 {} else if rank == 16 {} else if rank == 32 {} else {}
  }

  lemma TailFits(rank: int, hidden: nat)
    requires IsRank(rank)
    ensures var tiles, rest := hidden / Y_TILE, hidden % Y_TILE;
            var whole, n := rest * rank / W_TILE, TailRepeats(rank, rest);
            && whole < Streams(rank) && n <= W_TILE / REPEAT
            && (whole + 1) * TileOutputs(rank) <= Y_TILE
            && (tiles * Streams(rank) + whole) * W_TILE + n * REPEAT <= hidden * rank
            && TailOutputs(rank, rest) * rank <= whole * W_TILE + n * REPEAT
            && (n == 0 ==> TailOutputs(rank, rest) <= whole * TileOutputs(rank))
  {
    TileShape(rank);
    if rank == 8 {} else if rank == 16 {} else if rank == 32 {} else {}
  }

  lemma WholeFits(rank: int, hidden: nat, i: nat)
    requires IsRank(rank) && i < hidden / Y_TILE
    ensures (i * Streams(rank) + Streams(rank)) * W_TILE <= hidden * rank && i * Y_TILE + Y_TILE <= hidden
    ensures Streams(rank) * TileOutputs(rank) == Y_TILE && (i + 1) * Y_TILE == i * Y_TILE + Y_TILE
  {
    TileShape(rank);
    if rank == 8 {} else if rank == 16 {} else if rank == 32 {} else {}
  }

  // ----- what one token gains

  /** The buffers and the results so far. */
  datatype Progress = Progress(l: Local, gain: seq<real>)

  predicate Inputs(x: seq<real>, w: seq<real>, rank: int, hidden: nat) {
    IsRank(rank) && |x| == rank && |w| == hidden * rank
  }

  /** After the first i whole output tiles; v is the slice of y as the token found it.  The old outputs
      are added in the output buffer, so they are what the next tile finds there. */
  function WholeTiles(x: seq<real>, w: seq<real>, rank: int, v: seq<real>, i: nat, l: Local): (r: Progress)
    requires Inputs(x, w, rank, |v|) && i <= |v| / Y_TILE && Sized(l)
    ensures Sized(r.l) && |r.gain| == i * Y_TILE
  {
    if i == 0 then Progress(l, [])
    else
      WholeFits(rank, |v|, i - 1);
      var before := WholeTiles(x, w, rank, v, i - 1, l);
      var after := TilesOf(x, w, rank, i - 1, Streams(rank), before.l);
      Progress(after.(out := Plus(after.out, 0, v[(i - 1) * Y_TILE..i * Y_TILE])), before.gain + after.out)
  }

  /** The buffers after the partial output tile. */
  function TailOf(x: seq<real>, w: seq<real>, rank: int, hidden: nat, l: Local): (r: Local)
    requires Inputs(x, w, rank, hidden) && Sized(l)
    ensures Sized(r)
  {
    TailFits(rank, hidden);
    var tiles, rest := hidden / Y_TILE, hidden % Y_TILE;
    var whole := rest * rank / W_TILE;
    var filled := TilesOf(x, w, rank, tiles, whole, l);
    if rest * rank % W_TILE == 0 then filled
    else TileOf(x, w, rank, (tiles * Streams(rank) + whole) * W_TILE, TailRepeats(rank, rest), filled,
                whole * TileOutputs(rank))
  }

  /** What one token adds to its slice v of y: the whole output tiles and the first part of the last one. */
  function Kernel(x: seq<real>, w: seq<real>, rank: int, v: seq<real>, l: Local): (r: Progress)
    requires Inputs(x, w, rank, |v|) && Sized(l)
    ensures Sized(r.l) && |r.gain| == |v|
  {
    var whole, rest := WholeTiles(x, w, rank, v, |v| / Y_TILE, l), |v| % Y_TILE;
    if rest == 0 then whole
    else
      var tail := TailOf(x, w, rank, |v|, whole.l);
      Progress(tail.(out := Plus(tail.out, 0, v[|v| / Y_TILE * Y_TILE..])), whole.gain + tail.out[..rest])
  }

  /** The whole output tiles of a token. */
  method ProcessWhole(x: seq<real>, w: seq<real>, rank: int, hidden: nat, y: array<real>, at: nat, buf: Buffers)
    requires Inputs(x, w, rank, hidden) && at + hidden <= y.Length && buf.Valid() && Repeated(x, buf.xDup[..], rank)
    requires y != buf.xDup && y != buf.tmp && y != buf.yLocal
    modifies y, buf.tmp, buf.yLocal
    ensures y[..] == Plus(old(y[..]), at,
                          WholeTiles(x, w, rank, old(y[at..at + hidden]), hidden / Y_TILE, old(buf.Contents())).gain)
    ensures buf.Contents() == WholeTiles(x, w, rank, old(y[at..at + hidden]), hidden / Y_TILE, old(buf.Contents())).l
  {
    hide TilesOf, Streams, TileOutputs, WholeTiles, Plus, Repeated, Inputs;
    ghost var l, y0, v := buf.Contents(), y[..], y[at..at + hidden];
    InputsAre(x, w, rank, hidden);
    PlusNone(y0, at);
    WholeStart(x, w, rank, v, l);
    for i := 0 to hidden / Y_TILE
      invariant Repeated(x, buf.xDup[..], rank) && i * Y_TILE <= hidden
      invariant y[..] == Plus(y0, at, WholeTiles(x, w, rank, v, i, l).gain)
      invariant buf.Contents() == WholeTiles(x, w, rank, v, i, l).l
    {
      ghost var before := WholeTiles(x, w, rank, v, i, l);
      WholeFits(rank, hidden, i);
      WholeStep(x, w, rank, v, i, l);
      FillTiles(x, buf.xDup, w, rank, i, Streams(rank), buf.tmp, buf.yLocal);
      ghost var out := buf.yLocal[..];
      StillOld(y0, at, before.gain, v, Y_TILE);
      assert y[at + i * Y_TILE..at + i * Y_TILE + Y_TILE] == y[..][at + i * Y_TILE..at + i * Y_TILE + Y_TILE];
      AddOut(y, at + i * Y_TILE, Y_TILE, buf.yLocal);
      assert out[..Y_TILE] == out;
      PlusMore(y0, at, before.gain, out);
    }
  }

  /** Outputs that have gained nothing yet are as the token found them. */
  lemma StillOld(y: seq<real>, at: nat, gain: seq<real>, v: seq<real>, n: nat)
    requires at + |v| <= |y| && v == y[at..at + |v|] && |gain| + n <= |v|
    ensures Plus(y, at, gain)[at + |gain|..at + |gain| + n] == v[|gain|..|gain| + n]
  {
  }

  lemma InputsAre(x: seq<real>, w: seq<real>, rank: int, hidden: nat)
    requires Inputs(x, w, rank, hidden)
    ensures IsRank(rank) && |x| == rank && |w| == hidden * rank
  {
  }

  /** One token: whole output tiles, then the partial one. */
  method ProcessToken(x: seq<real>, w: seq<real>, rank: int, hidden: nat, y: array<real>, at: nat, buf: Buffers)
    requires Inputs(x, w, rank, hidden) && at + hidden <= y.Length && buf.Valid()
    requires y != buf.xDup && y != buf.tmp && y != buf.yLocal
    modifies y, buf.xDup, buf.tmp, buf.yLocal
    ensures y[..] == Plus(old(y[..]), at, Kernel(x, w, rank, old(y[at..at + hidden]), old(buf.Contents())).gain)
    ensures buf.Contents() == Kernel(x, w, rank, old(y[at..at + hidden]), old(buf.Contents())).l
  {
    hide TailOf, WholeTiles, Plus, Repeated, Kernel, Inputs;
    ghost var l, y0, v := buf.Contents(), y[..], y[at..at + hidden];
    InputsAre(x, w, rank, hidden);
    CopyInX(x, rank, buf.xDup);
    assert buf.Contents() == l;
    ProcessWhole(x, w, rank, hidden, y, at, buf);
    ghost var whole := WholeTiles(x, w, rank, v, hidden / Y_TILE, l);
    var tiles, rest := hidden / Y_TILE, hidden % Y_TILE;
    KernelCases(x, w, rank, v, l);
    if rest == 0 {
      return;
    }
    TailFill(x, w, rank, hidden, buf);
    ghost var out := buf.yLocal[..];
    StillOld(y0, at, whole.gain, v, rest);
    assert y[at + tiles * Y_TILE..at + tiles * Y_TILE + rest] == y[..][at + tiles * Y_TILE..at + tiles * Y_TILE + rest];
    assert v[tiles * Y_TILE..tiles * Y_TILE + rest] == v[tiles * Y_TILE..];
    assert buf.yLocal[..rest] == out[..rest];
    AddOut(y, at + tiles * Y_TILE, rest, buf.yLocal);
    PlusMore(y0, at, whole.gain, out[..rest]);
  }

  lemma KernelCases(x: seq<real>, w: seq<real>, rank: int, v: seq<real>, l: Local)
    requires Inputs(x, w, rank, |v|) && Sized(l)
    ensures var tiles, rest := |v| / Y_TILE, |v| % Y_TILE;
            var whole := WholeTiles(x, w, rank, v, tiles, l);
            var tail := TailOf(x, w, rank, |v|, whole.l);
            Kernel(x, w, rank, v, l)
            == if rest == 0 then whole
               else Progress(tail.(out := Plus(tail.out, 0, v[tiles * Y_TILE..])), whole.gain + tail.out[..rest])
  {
    hide TailOf, WholeTiles, Plus;
  }

  lemma WholeStart(x: seq<real>, w: seq<real>, rank: int, v: seq<real>, l: Local)
    requires Inputs(x, w, rank, |v|) && Sized(l)
    ensures WholeTiles(x, w, rank, v, 0, l) == Progress(l, [])
  {
  }

  lemma WholeStep(x: seq<real>, w: seq<real>, rank: int, v: seq<real>, i: nat, l: Local)
    requires Inputs(x, w, rank, |v|) && i < |v| / Y_TILE && Sized(l)
    ensures (i * Streams(rank) + Streams(rank)) * W_TILE <= |w| && i * Y_TILE + Y_TILE <= |v|
    ensures var before := WholeTiles(x, w, rank, v, i, l);
            var after := TilesOf(x, w, rank, i, Streams(rank), before.l);
            WholeTiles(x, w, rank, v, i + 1, l)
            == Progress(after.(out := Plus(after.out, 0, v[i * Y_TILE..i * Y_TILE + Y_TILE])), before.gain + after.out)
  {
    hide TilesOf, Streams, Plus;
    WholeFits(rank, |v|, i);
  }

  /** The partial output tile. */
  method TailFill(x: seq<real>, w: seq<real>, rank: int, hidden: nat, buf: Buffers)
    requires Inputs(x, w, rank, hidden) && buf.Valid() && Repeated(x, buf.xDup[..], rank)
    modifies buf.tmp, buf.yLocal
    ensures buf.Contents() == TailOf(x, w, rank, hidden, old(buf.Contents()))
  {
    hide TilesOf, TileOf, Streams, TileOutputs, Repeated;
    var tiles, rest := hidden / Y_TILE, hidden % Y_TILE;
    var whole, n := rest * rank / W_TILE, rest * rank % W_TILE / REPEAT;
    TailFits(rank, hidden);
    FillTiles(x, buf.xDup, w, rank, tiles, whole, buf.tmp, buf.yLocal);
    if rest * rank % W_TILE != 0 {
      WholeTile(rank, whole);
      ComputeTile(x, buf.xDup, w, rank, (tiles * Streams(rank) + whole) * W_TILE, n, buf.tmp, buf.yLocal,
                  whole * TileOutputs(rank));
    }
  }

  // ----- covered outputs

  lemma {:induction false} WholeCorrect(x: seq<real>, w: seq<real>, rank: int, v: seq<real>, i: nat, l: Local, o: nat)
    requires Inputs(x, w, rank, |v|) && i <= |v| / Y_TILE && Sized(l) && o < i * Y_TILE
    ensures o * rank + rank <= |w| && WholeTiles(x, w, rank, v, i, l).gain[o] == Dot(x, w, o * rank, rank)
    decreases i
  {
    hide Dot, TilesOf, Streams, TileOutputs, WholeTiles, Plus;
    WholeFits(rank, |v|, i - 1);
    WholeStep(x, w, rank, v, i - 1, l);
    var before := WholeTiles(x, w, rank, v, i - 1, l);
    if o < (i - 1) * Y_TILE {
      WholeCorrect(x, w, rank, v, i - 1, l, o);
    } else {
      var local := o - (i - 1) * Y_TILE;
      TilesCorrect(x, w, rank, i - 1, Streams(rank), before.l);
      assert Correct(x, w, rank, (i - 1) * Y_TILE, TilesOf(x, w, rank, i - 1, Streams(rank), before.l).out, local);
      assert (i - 1) * Y_TILE + local == o;
    }
  }

  lemma TailCorrect(x: seq<real>, w: seq<real>, rank: int, hidden: nat, l: Local)
    requires Inputs(x, w, rank, hidden) && Sized(l)
    ensures CorrectUpTo(x, w, rank, hidden / Y_TILE * Y_TILE, TailOf(x, w, rank, hidden, l).out,
                        TailOutputs(rank, hidden % Y_TILE))
  {
    hide Dot, Correct, Streams, TileOutputs, TailOutputs, TilesOf, TileOf;
    var tiles, rest := hidden / Y_TILE, hidden % Y_TILE;
    var whole, n := rest * rank / W_TILE, TailRepeats(rank, rest);
    TailFits(rank, hidden);
    TilesCorrect(x, w, rank, tiles, whole, l);
    if rest * rank % W_TILE != 0 {
      var before := TilesOf(x, w, rank, tiles, whole, l);
      WholeTile(rank, whole);
      TileComputes(x, w, rank, (tiles * Streams(rank) + whole) * W_TILE, n, before, whole * TileOutputs(rank));
      TileDone(x, w, rank, tiles, whole, n, before.out, TailOf(x, w, rank, hidden, l).out, TailOutputs(rank, rest));
    }
  }

  /** Every output whose weights fill whole repeats gains the plain dot product of its row with x. */
  lemma CoveredGain(x: seq<real>, w: seq<real>, rank: int, v: seq<real>, l: Local, o: nat)
    requires Inputs(x, w, rank, |v|) && Sized(l) && o < |v| && Covered(rank, |v|, o)
    ensures o * rank + rank <= |w| && Kernel(x, w, rank, v, l).gain[o] == Dot(x, w, o * rank, rank)
  {
    hide Dot, TailOf, WholeTiles, Covered, TailOutputs, Kernel, Plus;
    var tiles, rest := |v| / Y_TILE, |v| % Y_TILE;
    KernelCases(x, w, rank, v, l);
    OneMore(o, |v|, rank);
    if o < tiles * Y_TILE {
      WholeCorrect(x, w, rank, v, tiles, l, o);
    } else {
      var before := WholeTiles(x, w, rank, v, tiles, l);
      TailCorrect(x, w, rank, |v|, before.l);
      TailCovered(rank, |v|, o);
      assert Correct(x, w, rank, tiles * Y_TILE, TailOf(x, w, rank, |v|, before.l).out, o - tiles * Y_TILE);
    }
  }

  // ----- weights that are never read

  /** How many weights the kernel reads: whole repeats only. */
  function ReadWeights(rank: int, hidden: nat): nat
    requires IsRank(rank)
  {
    hidden * rank / REPEAT * REPEAT
  }

  lemma TileSame(x: seq<real>, w: seq<real>, v: seq<real>, rank: int, base: nat, n: nat, l: Local, progress: nat,
                 read: nat)
    requires IsRank(rank) && |x| == rank && base + n * REPEAT <= read <= |w| == |v| && w[..read] == v[..read]
    ensures TileOf(x, w, rank, base, n, l, progress) == TileOf(x, v, rank, base, n, l, progress)
  {
    hide CascadeOf;
    forall i | 0 <= i < read ensures w[i] == v[i] { assert w[..read][i] == v[..read][i]; }
    var a, b := Scaled(x, w, rank, base, n, l.tmp), Scaled(x, v, rank, base, n, l.tmp);
    forall e | 0 <= e < |a| ensures a[e] == b[e] {}
    assert a == b;
  }

  lemma {:induction false} TilesSame(x: seq<real>, w: seq<real>, v: seq<real>, rank: int, i: nat, j: nat, l: Local,
                                     read: nat)
    requires IsRank(rank) && |x| == rank && (i * Streams(rank) + j) * W_TILE <= read <= |w| == |v|
             && w[..read] == v[..read]
    ensures TilesOf(x, w, rank, i, j, l) == TilesOf(x, v, rank, i, j, l)
    decreases j
  {
    hide TileOf, TileOutputs, Streams;
    if j > 0 {
      assert (i * Streams(rank) + (j - 1)) * W_TILE + W_TILE == (i * Streams(rank) + j) * W_TILE;
      TilesSame(x, w, v, rank, i, j - 1, l, read);
      TileSame(x, w, v, rank, (i * Streams(rank) + (j - 1)) * W_TILE, W_TILE / REPEAT, TilesOf(x, w, rank, i, j - 1, l),
               (j - 1) * TileOutputs(rank), read);
    }
  }

  lemma RepeatsBelow(c: nat, v: nat)
    requires c * REPEAT <= v
    ensures c * REPEAT <= v / REPEAT * REPEAT
  {
  }

  lemma {:induction false} WholeSame(x: seq<real>, w: seq<real>, u: seq<real>, rank: int, v: seq<real>, i: nat,
                                     l: Local)
    requires Inputs(x, w, rank, |v|) && Inputs(x, u, rank, |v|) && i <= |v| / Y_TILE && Sized(l)
    requires ReadWeights(rank, |v|) <= |w| && w[..ReadWeights(rank, |v|)] == u[..ReadWeights(rank, |v|)]
    ensures WholeTiles(x, w, rank, v, i, l) == WholeTiles(x, u, rank, v, i, l)
    decreases i
  {
    hide TilesOf, Streams, WholeTiles, Plus;
    if i > 0 {
      WholeSame(x, w, u, rank, v, i - 1, l);
      WholeStep(x, w, rank, v, i - 1, l);
      WholeStep(x, u, rank, v, i - 1, l);
      var c := (i - 1) * Streams(rank) + Streams(rank);
      assert c * W_TILE == c * 128 * REPEAT;
      RepeatsBelow(c * 128, |v| * rank);
      TilesSame(x, w, u, rank, i - 1, Streams(rank), WholeTiles(x, w, rank, v, i - 1, l).l, ReadWeights(rank, |v|));
    } else {
      WholeStart(x, w, rank, v, l);
      WholeStart(x, u, rank, v, l);
    }
  }

  lemma RunBelow(rank: int, hidden: nat, c: nat, n: nat)
    requires IsRank(rank) && c * W_TILE + n * REPEAT <= hidden * rank
    ensures c * W_TILE + n * REPEAT <= ReadWeights(rank, hidden)
  {
    assert c * W_TILE + n * REPEAT == (c * 128 + n) * REPEAT;
    RepeatsBelow(c * 128 + n, hidden * rank);
  }

  lemma TailSame(x: seq<real>, w: seq<real>, v: seq<real>, rank: int, hidden: nat, l: Local)
    requires Inputs(x, w, rank, hidden) && Inputs(x, v, rank, hidden) && Sized(l)
    requires ReadWeights(rank, hidden) <= |w| && w[..ReadWeights(rank, hidden)] == v[..ReadWeights(rank, hidden)]
    ensures TailOf(x, w, rank, hidden, l) == TailOf(x, v, rank, hidden, l)
  {
    hide TilesOf, TileOf, Streams, TileOutputs, IsRank;
    TailFits(rank, hidden);
    var tiles, rest := hidden / Y_TILE, hidden % Y_TILE;
    var whole, n, read := rest * rank / W_TILE, TailRepeats(rank, rest), ReadWeights(rank, hidden);
    var c := tiles * Streams(rank) + whole;
    hide ReadWeights, TailRepeats;
    RunBelow(rank, hidden, c, n);
    TilesSame(x, w, v, rank, tiles, whole, l, read);
    if rest * rank % W_TILE != 0 {
      TileSame(x, w, v, rank, c * W_TILE, n, TilesOf(x, w, rank, tiles, whole, l), whole * TileOutputs(rank), read);
    }
  }

  /** The weights past the last whole repeat have no influence on what a token gains or leaves behind. */
  lemma UnreadWeights(x: seq<real>, w: seq<real>, u: seq<real>, rank: int, v: seq<real>, l: Local)
    requires Inputs(x, w, rank, |v|) && Inputs(x, u, rank, |v|) && Sized(l)
    requires ReadWeights(rank, |v|) <= |w| && w[..ReadWeights(rank, |v|)] == u[..ReadWeights(rank, |v|)]
    ensures Kernel(x, w, rank, v, l) == Kernel(x, u, rank, v, l)
  {
    hide TailOf, WholeTiles, ReadWeights, Kernel, Plus;
    KernelCases(x, w, rank, v, l);
    KernelCases(x, u, rank, v, l);
    WholeSame(x, w, u, rank, v, |v| / Y_TILE, l);
    TailSame(x, w, u, rank, |v|, WholeTiles(x, w, rank, v, |v| / Y_TILE, l).l);
  }

  // ----- when the kernel is right

  /** The token gains the plain product of the weights with x. */
  ghost predicate Right(x: seq<real>, w: seq<real>, rank: int, v: seq<real>, l: Local)
    requires Inputs(x, w, rank, |v|) && Sized(l)
  {
    forall o :: 0 <= o < |v| ==> Gains(x, w, rank, o, Kernel(x, w, rank, v, l).gain)
  }

  ghost predicate Gains(x: seq<real>, w: seq<real>, rank: nat, o: nat, gain: seq<real>) {
    o < |gain| && rank <= |x| && o * rank + rank <= |w| && gain[o] == Dot(x, w, o * rank, rank)
  }

  ghost predicate AlwaysRight(rank: int, hidden: nat)
    requires IsRank(rank)
  {
    forall x, w, v, l :: |v| == hidden && Inputs(x, w, rank, |v|) && Sized(l) ==> Right(x, w, rank, v, l)
  }

  function Constant(n: nat, v: real): (r: seq<real>)
    ensures |r| == n && forall i :: 0 <= i < n ==> r[i] == v
  {
    seq(n, _ => v)
  }

  lemma {:induction false} DotZero(x: seq<real>, w: seq<real>, from: nat, n: nat)
    requires from + n <= |w| && n <= |x| && forall i :: from <= i < from + n ==> w[i] == 0.0
    ensures Dot(x, w, from, n) == 0.0
  {
    if n > 0 { DotZero(x, w, from, n - 1); }
  }

  /** With a weight past the last whole repeat, two sets of weights with different products gain the same. */
  lemma SomeWrong(rank: int, hidden: nat)
    requires IsRank(rank) && hidden * rank % REPEAT != 0
    ensures !AlwaysRight(rank, hidden)
  {
    var n := hidden * rank;
    var x, w, v := Constant(rank, 1.0), Constant(n, 0.0), Constant(hidden, 0.0);
    var l, u := Local(Constant(W_TILE, 0.0), Constant(Y_TILE, 0.0)), w[n - 1 := 1.0];
    var o := hidden - 1;
    assert o * rank + rank == n;
    assert w[..ReadWeights(rank, hidden)] == u[..ReadWeights(rank, hidden)];
    UnreadWeights(x, w, u, rank, v, l);
    DotZero(x, w, o * rank, rank);
    DotZero(x, u, o * rank, rank - 1);
    assert Dot(x, u, o * rank, rank) == Dot(x, u, o * rank, rank - 1) + x[rank - 1] * u[o * rank + rank - 1];
    hide Kernel, Dot;
    assert !(Gains(x, w, rank, o, Kernel(x, w, rank, v, l).gain) && Gains(x, u, rank, o,
           Kernel(x, u, rank, v, l).gain));
    assert !(Right(x, w, rank, v, l) && Right(x, u, rank, v, l));
  }

  /** The kernel gives the right result for all inputs, old outputs and buffer contents exactly when the
      weights of the slice fill whole repeats. */
  lemma RightExactly(rank: int, hidden: nat)
    requires IsRank(rank)
    ensures AlwaysRight(rank, hidden) <==> hidden * rank % REPEAT == 0
  {
    hide Kernel, Dot;
    if hidden * rank % REPEAT == 0 {
      CoveredExactly(rank, hidden);
      forall x, w, v, l | |v| == hidden && Inputs(x, w, rank, |v|) && Sized(l) ensures Right(x, w, rank, v, l) {
        forall o | 0 <= o < hidden ensures Gains(x, w, rank, o, Kernel(x, w, rank, v, l).gain) {
          assert Covered(rank, hidden, o);
          CoveredGain(x, w, rank, v, l, o);
        }
      }
    } else {
      SomeWrong(rank, hidden);
    }
  }

  /** Rank 8: a partial tile with one whole repeat leaves the ninth local output as it finds it. */
  lemma NinthLocal(x: seq<real>, w: seq<real>, base: nat, l: Local)
    requires |x| == 8 && base + REPEAT <= |w| && Sized(l)
    ensures TileOf(x, w, 8, base, 1, l, 0).out[8] == l.out[8]
  {
  }

  /** Rank 8 and a slice of 9: the last output gains whatever the output buffer held before. */
  lemma NinthOutput(x: seq<real>, w: seq<real>, v: seq<real>, l: Local)
    requires |v| == 9 && Inputs(x, w, 8, 9) && Sized(l)
    ensures Kernel(x, w, 8, v, l).gain[8] == l.out[8]
    ensures Kernel(x, w, 8, v, l).l.out[8] == l.out[8] + v[8]
  {
    WholeStart(x, w, 8, v, l);
    assert TailRepeats(8, 9) == 1 && Streams(8) == 4;
    assert TilesOf(x, w, 8, 0, 0, l) == l;
    NinthLocal(x, w, 0, l);
    hide TileOf;
    assert TailOf(x, w, 8, 9, l) == TileOf(x, w, 8, 0, 1, l, 0);
  }

  /** Rank 8 and a slice of 4097, whose last output has no whole repeat at all: it gains the first output
      of the slice, old value included. */
  lemma PastWholeTile(x: seq<real>, w: seq<real>, v: seq<real>, l: Local)
    requires |v| == 4097 && Inputs(x, w, 8, 4097) && Sized(l)
    ensures Kernel(x, w, 8, v, l).gain[4096] == Dot(x, w, 0, 8) + v[0]
  {
    hide Dot, WholeTiles, TailOf, TilesOf, TileOf, Kernel, Streams;
    KernelCases(x, w, 8, v, l);
    var whole := WholeTiles(x, w, 8, v, 1, l);
    WholeCorrect(x, w, 8, v, 1, l, 0);
    WholeStep(x, w, 8, v, 0, l);
    WholeStart(x, w, 8, v, l);
    EmptyTail(x, w, whole.l);
  }

  lemma EmptyTail(x: seq<real>, w: seq<real>, l: Local)
    requires Inputs(x, w, 8, 4097) && Sized(l)
    ensures TailOf(x, w, 8, 4097, l).out[0] == l.out[0]
  {
    assert Streams(8) == 4 && TailRepeats(8, 1) == 0;
    assert TilesOf(x, w, 8, 1, 0, l) == l;
    var t := TileOf(x, w, 8, 4 * W_TILE, 0, l, 0);
    assert t.out[0] == l.out[0];
    hide TileOf;
    assert TailOf(x, w, 8, 4097, l) == t;
  }

  /** What the launch wrapper asks of the sizes. */
  predicate WrapperAccepts(rank: int, sliceSize: int, sliceOffset: int, fullDim: int) {
    rank <= sliceSize && sliceOffset >= 0 && sliceSize + sliceOffset <= fullDim
  }

  /** The wrapper lets such a slice pass, and with all weights zero and a one left in the buffer the
      ninth output is wrong. */
  lemma StaleOutput()
    ensures WrapperAccepts(8, 9, 0, 9)
    ensures var x, w, v := Constant(8, 1.0), Constant(72, 0.0), Constant(9, 0.0);
            var l := Local(Constant(W_TILE, 0.0), Constant(Y_TILE, 1.0));
            Inputs(x, w, 8, 9) && Kernel(x, w, 8, v, l).gain[8] == 1.0 && Dot(x, w, 8 * 8, 8) == 0.0
  {
    var x, w, v := Constant(8, 1.0), Constant(72, 0.0), Constant(9, 0.0);
    var l := Local(Constant(W_TILE, 0.0), Constant(Y_TILE, 1.0));
    NinthOutput(x, w, v, l);
    DotZero(x, w, 64, 8);
  }

  /** Whatever the buffers held, a slice of 4097 with zero weights and a one as its first old output is wrong. */
  lemma LongSliceWrong(l: Local)
    requires Sized(l)
    ensures WrapperAccepts(8, 4097, 0, 4097)
    ensures var x, w, v := Constant(8, 1.0), Constant(4097 * 8, 0.0), Constant(4097, 0.0)[0 := 1.0];
            Inputs(x, w, 8, 4097) && Kernel(x, w, 8, v, l).gain[4096] == 1.0 && Dot(x, w, 4096 * 8, 8) == 0.0
  {
    var x, w, v := Constant(8, 1.0), Constant(4097 * 8, 0.0), Constant(4097, 0.0)[0 := 1.0];
    PastWholeTile(x, w, v, l);
    DotZero(x, w, 0, 8);
    DotZero(x, w, 4096 * 8, 8);
  }

  // ----- all tokens, on all cores

  /** The arguments of a launch; indices[t] is the LoRA of token t, negative for none. */
  datatype Job = Job(x: seq<real>, weights: seq<real>, indices: seq<int>, rank: nat, hidden: nat, sliceOffset: nat,
                     fullDim: nat)

  ghost predicate JobValid(job: Job) {
    && IsRank(job.rank) && job.sliceOffset + job.hidden <= job.fullDim
    && forall t :: 0 <= t < |job.indices| ==> InputsOf(job, t)
  }

  ghost predicate InputsOf(job: Job, t: nat) {
    && t < |job.indices| && t * job.rank + job.rank <= |job.x|
    && (job.indices[t] >= 0 ==> job.indices[t] * (job.hidden * job.rank) + job.hidden * job.rank <= |job.weights|)
  }

  function TokenX(job: Job, t: nat): (r: seq<real>)
    requires t * job.rank + job.rank <= |job.x|
    ensures |r| == job.rank
  {
    job.x[t * job.rank..t * job.rank + job.rank]
  }

  function LoraW(job: Job, l: nat): (r: seq<real>)
    requires l * (job.hidden * job.rank) + job.hidden * job.rank <= |job.weights|
    ensures |r| == job.hidden * job.rank
  {
    job.weights[l * (job.hidden * job.rank)..l * (job.hidden * job.rank) + job.hidden * job.rank]
  }

  /** Row t of y. */
  function YRow(y: seq<real>, t: nat, fullDim: nat): (r: seq<real>)
    requires t * fullDim + fullDim <= |y|
    ensures |r| == fullDim
  {
    y[t * fullDim..t * fullDim + fullDim]
  }

  /** Token t has been added exactly once: its slice gains what the kernel computes from some contents
      of the buffers, the rest of its row is unchanged, and a token without a LoRA keeps its whole row. */
  ghost predicate RowDone(job: Job, t: nat, y0: seq<real>, y: seq<real>) {
    && JobValid(job) && t < |job.indices| && t * job.fullDim + job.fullDim <= |y0| == |y| && InputsOf(job, t)
    && if job.indices[t] < 0 then YRow(y, t, job.fullDim) == YRow(y0, t, job.fullDim)
       else exists l :: Sized(l) && RowGains(job, t, l, YRow(y0, t, job.fullDim), YRow(y, t, job.fullDim))
  }

  /** What the kernel adds to the slice of row t. */
  function RowGain(job: Job, t: nat, l: Local, row: seq<real>): (gain: seq<real>)
    requires IsRank(job.rank) && InputsOf(job, t) && job.indices[t] >= 0 && Sized(l)
             && job.sliceOffset + job.hidden <= |row|
    ensures |gain| == job.hidden
  {
    Kernel(TokenX(job, t), LoraW(job, job.indices[t]), job.rank, row[job.sliceOffset..job.sliceOffset + job.hidden],
           l).gain
  }

  ghost predicate RowGains(job: Job, t: nat, l: Local, before: seq<real>, after: seq<real>)
    requires JobValid(job) && InputsOf(job, t) && job.indices[t] >= 0 && Sized(l) && |before| == job.fullDim
  {
    after == Plus(before, job.sliceOffset, RowGain(job, t, l, before))
  }

  /** Adding to a slice of one row of y is adding to that row ... */
  lemma PlusRow(y: seq<real>, t: nat, fullDim: nat, offset: nat, gain: seq<real>, rows: nat)
    requires |y| == rows * fullDim && t < rows && offset + |gain| <= fullDim
    ensures t * fullDim + fullDim <= |y|
    ensures YRow(Plus(y, t * fullDim + offset, gain), t, fullDim) == Plus(YRow(y, t, fullDim), offset, gain)
  {
    hide Plus;
    OneMore(t, rows, fullDim);
    PlusSlice(y, t * fullDim, offset, gain, fullDim);
  }

  /** ... and changes no other row. */
  lemma OtherRow(y: seq<real>, t: nat, u: nat, fullDim: nat, offset: nat, gain: seq<real>, rows: nat)
    requires |y| == rows * fullDim && t < rows && u < rows && u != t && offset + |gain| <= fullDim
    ensures u * fullDim + fullDim <= |y| && YRow(Plus(y, t * fullDim + offset, gain), u, fullDim) == YRow(y, u, fullDim)
  {
    hide Plus;
    OneMore(u, rows, fullDim);
    if u < t { OneMore(u, t, fullDim); } else { OneMore(t, u, fullDim); }
    PlusElsewhere(y, t * fullDim + offset, gain, u * fullDim, fullDim);
  }

  lemma PlusElsewhere(y: seq<real>, at: nat, gain: seq<real>, a: nat, n: nat)
    requires a + n <= |y| && (a + n <= at || at + |gain| <= a)
    ensures Plus(y, at, gain)[a..a + n] == y[a..a + n]
  {
  }

  lemma PlusSlice(y: seq<real>, a: nat, offset: nat, gain: seq<real>, n: nat)
    requires a + n <= |y| && offset + |gain| <= n
    ensures Plus(y, a + offset, gain)[a..a + n] == Plus(y[a..a + n], offset, gain)
  {
  }

  /** The tokens of core b. */
  predicate OnCore(b: nat, perCore: nat, tokens: nat, t: nat) {
    b * perCore <= t < Min(b * perCore + perCore, tokens)
  }

  function Cores(tokens: nat, perCore: nat): nat
    requires perCore > 0
  {
    CeilDiv(tokens, perCore)
  }

  /** Every token is on exactly one of the launched cores. */
  lemma OneCoreEach(tokens: nat, perCore: nat, t: nat)
    requires perCore > 0 && t < tokens
    ensures t / perCore < Cores(tokens, perCore)
    ensures forall b: nat :: OnCore(b, perCore, tokens, t) <==> b == t / perCore
  {
    var q := t / perCore;
    assert q * perCore <= t < q * perCore + perCore;
    var c := Cores(tokens, perCore);
    assert c * perCore >= tokens by { CeilCovers(tokens, perCore); }
    if c <= q {
      if c < q { RowMajorOrder(c, 0, q, 0, perCore); }
    }
    forall b: nat ensures OnCore(b, perCore, tokens, t) <==> b == q {
      if b < q { OneMore(b, q, perCore); }
      if q < b { OneMore(q, b, perCore); }
    }
  }

  lemma CeilCovers(a: nat, b: nat)
    requires b > 0
    ensures CeilDiv(a, b) * b >= a
  {
    var n := a + b - 1;
    assert n == n / b * b + n % b;
  }

  ghost predicate SameRow(job: Job, t: nat, y0: seq<real>, y: seq<real>) {
    t * job.fullDim + job.fullDim <= |y0| == |y| && YRow(y, t, job.fullDim) == YRow(y0, t, job.fullDim)
  }

  lemma TokenStep(job: Job, t: nat, y: seq<real>, y': seq<real>, l: Local)
    requires JobValid(job) && t < |job.indices| && |y| == |y'| == |job.indices| * job.fullDim && InputsOf(job, t)
             && Sized(l)
    requires t * job.fullDim + job.fullDim <= |y|
    requires job.indices[t] < 0 ==> y' == y
    requires job.indices[t] >= 0 ==>
               y' == Plus(y, t * job.fullDim + job.sliceOffset, RowGain(job, t, l, YRow(y, t, job.fullDim)))
    ensures RowDone(job, t, y, y')
    ensures forall u :: 0 <= u < |job.indices| && u != t ==> SameRow(job, u, y, y')
  {
    hide Kernel, Plus, YRow, TokenX, LoraW, RowGain;
    forall u | 0 <= u < |job.indices| ensures u * job.fullDim + job.fullDim <= |y| {
      OneMore(u, |job.indices|, job.fullDim);
    }
    if job.indices[t] >= 0 {
      var gain := RowGain(job, t, l, YRow(y, t, job.fullDim));
      PlusRow(y, t, job.fullDim, job.sliceOffset, gain, |job.indices|);
      forall u | 0 <= u < |job.indices| && u != t ensures SameRow(job, u, y, y') {
        OtherRow(y, t, u, job.fullDim, job.sliceOffset, gain, |job.indices|);
      }
      assert RowGains(job, t, l, YRow(y, t, job.fullDim), YRow(y', t, job.fullDim));
    }
  }

  lemma JobInputs(job: Job, t: nat)
    requires JobValid(job) && t < |job.indices|
    ensures InputsOf(job, t)
  {
  }

  lemma JobSlice(job: Job)
    requires JobValid(job)
    ensures IsRank(job.rank) && job.sliceOffset + job.hidden <= job.fullDim
  {
  }

  lemma SliceOfSlice(y: seq<real>, a: nat, n: nat, offset: nat, count: nat)
    requires a + n <= |y| && offset + count <= n
    ensures y[a..a + n][offset..offset + count] == y[a + offset..a + offset + count]
  {
    var row, part, direct := y[a..a + n], y[a..a + n][offset..offset + count], y[a + offset..a + offset + count];
    forall i | 0 <= i < count ensures part[i] == direct[i] {
      assert part[i] == row[offset + i] == y[a + (offset + i)];
    }
  }

  lemma GainOfRow(job: Job, t: nat, l: Local, y: seq<real>)
    requires JobValid(job) && InputsOf(job, t) && job.indices[t] >= 0 && Sized(l)
             && t * job.fullDim + job.fullDim <= |y|
    ensures var at := t * job.fullDim + job.sliceOffset;
            RowGain(job, t, l, YRow(y, t, job.fullDim))
            == Kernel(TokenX(job, t), LoraW(job, job.indices[t]), job.rank, y[at..at + job.hidden], l).gain
  {
    hide Kernel, TokenX, LoraW, IsRank;
    JobSlice(job);
    SliceOfSlice(y, t * job.fullDim, job.fullDim, job.sliceOffset, job.hidden);
  }

  /** One token of a core. */
  method RunToken(job: Job, t: nat, y: array<real>, buf: Buffers)
    requires JobValid(job) && t < |job.indices| && y.Length == |job.indices| * job.fullDim && buf.Valid()
    requires y != buf.xDup && y != buf.tmp && y != buf.yLocal
    modifies y, buf.xDup, buf.tmp, buf.yLocal
    ensures RowDone(job, t, old(y[..]), y[..])
    ensures forall u :: 0 <= u < |job.indices| && u != t ==> SameRow(job, u, old(y[..]), y[..])
  {
    hide RowDone, SameRow, Kernel, Plus, YRow, RowGain;
    ghost var before, l := y[..], buf.Contents();
    JobInputs(job, t);
    OneMore(t, |job.indices|, job.fullDim);
    var lora := job.indices[t];
    if lora >= 0 {
      GainOfRow(job, t, l, before);
      ProcessToken(job.x[t * job.rank..t * job.rank + job.rank],
                   job.weights[lora * (job.hidden * job.rank)..lora * (job.hidden * job.rank) + job.hidden * job.rank],
                   job.rank, job.hidden, y, t * job.fullDim + job.sliceOffset, buf);
    }
    TokenStep(job, t, before, y[..], l);
  }

  /** One core: its tokens, one after the other. */
  method RunCore(job: Job, block: nat, perCore: nat, y: array<real>, buf: Buffers)
    requires JobValid(job) && perCore > 0 && y.Length == |job.indices| * job.fullDim && buf.Valid()
    requires y != buf.xDup && y != buf.tmp && y != buf.yLocal
    modifies y, buf.xDup, buf.tmp, buf.yLocal
    ensures forall t: nat :: t < |job.indices| ==>
              if OnCore(block, perCore, |job.indices|, t) then RowDone(job, t, old(y[..]), y[..])
                  else SameRow(job, t, old(y[..]), y[..])
  {
    hide RowDone, SameRow, JobValid, InputsOf;
    ghost var y0 := y[..];
    var start := block * perCore;
    var end := if start + perCore > |job.indices| then |job.indices| else start + perCore;
    AllSame(job, y0);
    var idx := start;
    while idx < end
      invariant start <= idx
      invariant forall t: nat :: t < |job.indices| ==> if start <= t < idx && t < end then RowDone(job, t, y0, y[..])
                else SameRow(job, t, y0, y[..])
      decreases end - idx
    {
      ghost var before := y[..];
      RunToken(job, idx, y, buf);
      DoneFrom(job, idx, y0, before, y[..]);
      forall t: nat | t < |job.indices| && t != idx
        ensures RowDone(job, t, y0, before) ==> RowDone(job, t, y0, y[..])
        ensures SameRow(job, t, y0, before) ==> SameRow(job, t, y0, y[..])
      {
        RowsCompose(job, t, y0, before, y[..]);
      }
      idx := idx + 1;
    }
  }

  lemma AllSame(job: Job, y: seq<real>)
    requires |y| == |job.indices| * job.fullDim
    ensures forall t: nat :: t < |job.indices| ==> SameRow(job, t, y, y)
  {
    forall t: nat | t < |job.indices| ensures SameRow(job, t, y, y) { OneMore(t, |job.indices|, job.fullDim); }
  }

  lemma RowsCompose(job: Job, t: nat, y0: seq<real>, y: seq<real>, y': seq<real>)
    requires SameRow(job, t, y, y')
    ensures RowDone(job, t, y0, y) ==> RowDone(job, t, y0, y')
    ensures SameRow(job, t, y0, y) ==> SameRow(job, t, y0, y')
  {
    hide Kernel, Plus;
  }

  /** The launch: every token is added exactly once, in exact arithmetic. */
  method Launch(job: Job, perCore: nat, y: array<real>, buf: Buffers)
    requires JobValid(job) && perCore > 0 && y.Length == |job.indices| * job.fullDim && buf.Valid()
    requires y != buf.xDup && y != buf.tmp && y != buf.yLocal
    modifies y, buf.xDup, buf.tmp, buf.yLocal
    ensures forall t: nat :: t < |job.indices| ==> RowDone(job, t, old(y[..]), y[..])
    ensures forall t: nat, i: nat :: t < |job.indices| && i < job.fullDim ==> ElementDone(job, t, old(y[..]), y[..], i)
  {
    hide RowDone, SameRow, OnCore, Cores, JobValid, ElementDone;
    ghost var y0 := y[..];
    var n := |job.indices|;
    AllSame(job, y0);
    var cores := Cores(n, perCore);
    for b := 0 to cores
      invariant forall t: nat :: t < n ==> if t / perCore < b then RowDone(job, t, y0, y[..])
                else SameRow(job, t, y0, y[..])
    {
      ghost var before := y[..];
      RunCore(job, b, perCore, y, buf);
      forall t: nat | t < n
        ensures if t / perCore < b + 1 then RowDone(job, t, y0, y[..]) else SameRow(job, t, y0, y[..])
      {
        OneCoreEach(n, perCore, t);
        if t / perCore == b { DoneFrom(job, t, y0, before, y[..]); } else { RowsCompose(job, t, y0, before, y[..]); }
      }
    }
    forall t: nat | t < n ensures RowDone(job, t, y0, y[..]) { OneCoreEach(n, perCore, t); }
    forall t: nat, i: nat | t < n && i < job.fullDim ensures ElementDone(job, t, y0, y[..], i) {
      FinishedToken(job, t, y0, y[..], i);
    }
  }

  lemma DoneFrom(job: Job, t: nat, y0: seq<real>, y: seq<real>, y': seq<real>)
    requires SameRow(job, t, y0, y) && RowDone(job, t, y, y')
    ensures RowDone(job, t, y0, y')
  {
    hide Kernel, Plus;
  }

  // ----- what a finished launch means

  /** The launch's arrays reach the weights of output o of token t's LoRA. */
  predicate Reaches(job: Job, t: nat, o: nat) {
    && t < |job.indices| && job.indices[t] >= 0 && t * job.rank + job.rank <= |job.x|
    && job.indices[t] * (job.hidden * job.rank) + o * job.rank + job.rank <= |job.weights|
  }

  /** x[a] * w[b] + ... + x[a + n - 1] * w[b + n - 1]. */
  function SumOfProducts(x: seq<real>, a: nat, w: seq<real>, b: nat, n: nat): real
    requires a + n <= |x| && b + n <= |w|
  {
    if n == 0 then 0.0 else SumOfProducts(x, a, w, b, n - 1) + x[a + n - 1] * w[b + n - 1]
  }

  lemma {:induction false} SliceDot(x: seq<real>, a: nat, rank: nat, w: seq<real>, b: nat, m: nat, from: nat, n: nat)
    requires a + rank <= |x| && b + m <= |w| && n <= rank && from + n <= m
    ensures Dot(x[a..a + rank], w[b..b + m], from, n) == SumOfProducts(x, a, w, b + from, n)
  {
    if n > 0 {
      SliceDot(x, a, rank, w, b, m, from, n - 1);
      assert x[a..a + rank][n - 1] == x[a + n - 1] && w[b..b + m][from + n - 1] == w[b + from + n - 1];
    }
  }

  /** Output o of token t: row o of its own LoRA with its own x. */
  function LoraSum(job: Job, t: nat, o: nat): real
    requires Reaches(job, t, o)
  {
    SumOfProducts(job.x, t * job.rank, job.weights, job.indices[t] * (job.hidden * job.rank) + o * job.rank, job.rank)
  }

  lemma LoraSumIsDot(job: Job, t: nat, o: nat)
    requires InputsOf(job, t) && Reaches(job, t, o) && o * job.rank + job.rank <= job.hidden * job.rank
    ensures Dot(TokenX(job, t), LoraW(job, job.indices[t]), o * job.rank, job.rank) == LoraSum(job, t, o)
  {
    hide SumOfProducts, Dot;
    SliceDot(job.x, t * job.rank, job.rank, job.weights, job.indices[t] * (job.hidden * job.rank),
             job.hidden * job.rank, o * job.rank, job.rank);
  }

  lemma ReachesAll(job: Job, t: nat, o: nat)
    requires InputsOf(job, t) && job.indices[t] >= 0 && o < job.hidden
    ensures o * job.rank + job.rank <= job.hidden * job.rank && Reaches(job, t, o)
  {
    OneMore(o, job.hidden, job.rank);
  }

  /** What a finished token means, element by element, over the launch's own arrays: an output o of the
      slice whose weights lie in whole repeats has gained the product of row o of the token's LoRA with
      its x, and outside the slice, or without a LoRA, all is as it was. */
  ghost predicate ElementDone(job: Job, t: nat, y0: seq<real>, y: seq<real>, i: nat) {
    var at, o := t * job.fullDim + i, i - job.sliceOffset;
    && t < |job.indices| && at < |y0| == |y|
    && if job.indices[t] >= 0 && 0 <= o < job.hidden
       then Reaches(job, t, o) && (Covered(job.rank, job.hidden, o) ==> y[at] == y0[at] + LoraSum(job, t, o))
       else y[at] == y0[at]
  }

  lemma FinishedToken(job: Job, t: nat, y0: seq<real>, y: seq<real>, i: nat)
    requires RowDone(job, t, y0, y) && i < job.fullDim
    ensures ElementDone(job, t, y0, y, i)
  {
    hide Kernel, Dot, TokenX, LoraW, LoraSum, RowGain, Covered;
    var before, after := YRow(y0, t, job.fullDim), YRow(y, t, job.fullDim);
    assert before[i] == y0[t * job.fullDim + i] && after[i] == y[t * job.fullDim + i];
    if job.indices[t] >= 0 {
      var l :| Sized(l) && RowGains(job, t, l, before, after);
      hide YRow;
      RowElement(job, t, l, before, after, i);
    }
  }

  lemma RowElement(job: Job, t: nat, l: Local, before: seq<real>, after: seq<real>, i: nat)
    requires JobValid(job) && InputsOf(job, t) && job.indices[t] >= 0 && Sized(l)
    requires |before| == job.fullDim && RowGains(job, t, l, before, after) && i < |before|
    ensures |after| == |before|
    ensures var o := i - job.sliceOffset;
            if 0 <= o < job.hidden
            then Reaches(job, t, o) && (Covered(job.rank, job.hidden, o) ==> after[i] == before[i] + LoraSum(job, t, o))
            else after[i] == before[i]
  {
    hide Kernel, Dot, TokenX, LoraW, LoraSum, Covered;
    var o := i - job.sliceOffset;
    if 0 <= o < job.hidden {
      ReachesAll(job, t, o);
      LoraSumIsDot(job, t, o);
      if Covered(job.rank, job.hidden, o) {
        CoveredGain(TokenX(job, t), LoraW(job, job.indices[t]), job.rank,
                    before[job.sliceOffset..job.sliceOffset + job.hidden], l, o);
      }
    }
  }
}
