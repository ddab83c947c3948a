/** Chunk indices of variable-length sequences packed into one token axis. */
module KdaChunks {
  import opened Lists

  datatype Option<T> = None | Some(value: T)

  function CeilDiv(x: int, y: int): int
    requires y > 0
  {
    Quotient(x + y - 1, y)
  }

  /** Division that truncates toward zero. */
  function Quotient(n: int, y: int): int
    requires y > 0
  {
    if n >= 0 then n / y else -(-n / y)
  }

  lemma QuotientTruncates(n: int, y: int)
    requires y > 0
    ensures var q := Quotient(n, y);
            if n >= 0 then q >= 0 && q * y <= n < q * y + y else q <= 0 && q * y - y < n <= q * y
  {
  }

  /** How many sequences the cumulative lengths delimit. */
  function Sequences(cu: seq<int>): nat { if cu == [] then 0 else |cu| - 1 }

  // ----- the cumulative lengths

  predicate CuAccepted(cu: seq<int>, total: int) {
    |cu| >= 2 && cu[0] == 0 && cu[|cu| - 1] == total && forall i, j :: 0 <= i < |cu| - 1 && j == i + 1 ==>
          cu[i] <= cu[j]
  }

  method CheckCuSeqlens(cu: Option<seq<int>>, total: int) returns (ok: bool)
    ensures ok <==> cu.None? || CuAccepted(cu.value, total)
  {
    if cu.None? {
      return true;
    }
    var c := cu.value;
    if |c| < 2 || c[0] != 0 || c[|c| - 1] != total {
      return false;
    }
    for i := 0 to |c| - 1
      invariant forall j, k :: 0 <= j < i && k == j + 1 ==> c[j] <= c[k]
    {
      if c[i] > c[i + 1] {
        return false;
      }
    }
    return true;
  }

  /** The running sums of the lengths, from 0 on. */
  function Running(lens: seq<nat>): (cu: seq<int>)
    ensures |cu| == |lens| + 1 && cu[0] == 0
  {
    if lens == [] then [0]
    else
      var front := Running(lens[..|lens| - 1]);
      front + [front[|lens| - 1] + lens[|lens| - 1]]
  }

  lemma {:induction false} RunningRises(lens: seq<nat>)
    ensures Rising(Running(lens))
  {
    if lens != [] { RunningRises(lens[..|lens| - 1]); }
  }

  lemma {:induction false} RisingIsRunning(cu: seq<int>) returns (lens: seq<nat>)
    requires Rising(cu) && cu != [] && cu[0] == 0
    ensures Running(lens) == cu
  {
    lens := [];
    if |cu| > 1 {
      var n := |cu| - 1;
      lens := RisingIsRunning(cu[..n]);
      assert cu[n - 1] <= cu[n];
      var more: nat := cu[n] - cu[n - 1];
      assert (lens + [more])[..|lens|] == lens;
      lens := lens + [more];
      assert cu == cu[..n] + [cu[n]];
    }
  }

  /** Accepted are exactly the running sums of the lengths of one or more sequences, empty ones
      included, that add up to the total. */
  lemma AcceptedIsRunning(cu: seq<int>, total: int)
    ensures CuAccepted(cu, total) <==> exists lens: seq<nat> :: lens != [] && Running(lens) == cu && cu[|lens|] == total
  {
    if CuAccepted(cu, total) {
      var lens := RisingIsRunning(cu);
    }
    if lens: seq<nat> :| lens != [] && Running(lens) == cu && cu[|lens|] == total {
      RunningRises(lens);
    }
  }

  /** Sequence s has chunks 0, ..., Chunks(s) - 1. */
  function Chunks(cu: seq<int>, size: int, s: nat): int
    requires size > 0 && s + 1 < |cu|
  {
    CeilDiv(cu[s + 1] - cu[s], size)
  }

  function ChunkSum(cu: seq<int>, size: int, k: nat): int
    requires size > 0 && k <= Sequences(cu)
  {
    if k == 0 then 0 else ChunkSum(cu, size, k - 1) + Chunks(cu, size, k - 1)
  }

  ghost predicate Rising(cu: seq<int>) {
    forall i, j :: 0 <= i < |cu| - 1 && j == i + 1 ==> cu[i] <= cu[j]
  }

  lemma ChunksNat(cu: seq<int>, size: int, s: nat)
    requires size > 0 && s + 1 < |cu| && Rising(cu)
    ensures Chunks(cu, size, s) >= 0 && (Chunks(cu, size, s) == 0 <==> cu[s] == cu[s + 1])
    ensures Chunks(cu, size, s) * size >= cu[s + 1] - cu[s]
    ensures Chunks(cu, size, s) > 0 ==> (Chunks(cu, size, s) - 1) * size < cu[s + 1] - cu[s]
  {
    var d := cu[s + 1] - cu[s];
    assert cu[s] <= cu[s + 1];
    CeilBounds(d, size);
  }

  lemma CeilBounds(d: nat, size: int)
    requires size > 0
    ensures var q := CeilDiv(d, size); q >= 0 && q * size >= d && (q > 0 ==> (q - 1) * size < d) && (q == 0 <==> d == 0)
  {
    var n := d + size - 1;
    var q := n / size;
    assert n == q * size + n % size && 0 <= n % size < size;
    assert q >= 0;
    if q > 0 { assert (q - 1) * size + size == q * size; }
    if d == 0 && q > 0 { RowMajorOrder(0, size - 1, q, 0, size); }
  }

  // ----- the list of chunks

  datatype Pair = Pair(sequence: int, chunk: int)

  /** The chunks of the first k sequences, in order. */
  function Pairs(cu: seq<int>, size: int, k: nat): (r: seq<Pair>)
    requires size > 0 && k <= Sequences(cu) && Rising(cu)
  {
    if k == 0 then []
    else
      ChunksNat(cu, size, k - 1);
      Pairs(cu, size, k - 1) + ChunksOf(k - 1, Chunks(cu, size, k - 1))
  }

  function Flatten(pairs: seq<Pair>): (r: seq<int>)
    ensures |r| == 2 * |pairs|
  {
    if pairs == [] then [] else Flatten(pairs[..|pairs| - 1]) + [pairs[|pairs| - 1].sequence, pairs[|pairs| - 1].chunk]
  }

  lemma FlattenMore(pairs: seq<Pair>, p: Pair)
    ensures Flatten(pairs + [p]) == Flatten(pairs) + [p.sequence, p.chunk]
  {
    assert (pairs + [p])[..|pairs|] == pairs;
  }

  lemma {:induction false} FlattenJoin(a: seq<Pair>, b: seq<Pair>)
    ensures Flatten(a + b) == Flatten(a) + Flatten(b)
  {
    if b == [] {
      assert a + b == a;
    } else {
      var front, last := b[..|b| - 1], b[|b| - 1];
      FlattenJoin(a, front);
      FlattenMore(a + front, last);
      assert a + b == a + front + [last];
    }
  }

  /** Entry i of the flat list: the sequence first, then the chunk. */
  predicate EntryIs(indices: seq<int>, i: nat, p: Pair) {
    2 * i + 1 < |indices| && indices[2 * i] == p.sequence && indices[2 * i + 1] == p.chunk
  }

  lemma {:induction false} FlattenEntry(pairs: seq<Pair>, i: nat)
    requires i < |pairs|
    ensures EntryIs(Flatten(pairs), i, pairs[i])
  {
    if i < |pairs| - 1 { FlattenEntry(pairs[..|pairs| - 1], i); }
  }

  /** The chunks of sequence s. */
  function ChunksOf(s: nat, n: nat): (r: seq<Pair>)
    ensures |r| == n && forall c :: 0 <= c < n ==> r[c] == Pair(s, c)
  {
    seq(n, c => Pair(s, c))
  }

  method AppendChunks(indices: seq<int>, s: nat, chunks: nat) returns (r: seq<int>)
    ensures r == indices + Flatten(ChunksOf(s, chunks))
  {
    r := indices;
    assert Flatten(ChunksOf(s, 0)) == [];
    hide Flatten, ChunksOf;
    for c := 0 to chunks
      invariant r == indices + Flatten(ChunksOf(s, c))
    {
      ghost var done := ChunksOf(s, c);
      FlattenMore(done, Pair(s, c));
      assert ChunksOf(s, c + 1) == done + [Pair(s, c)];
      assert indices + (Flatten(done) + [s, c]) == (indices + Flatten(done)) + [s, c];
      r := r + [s, c];
    }
  }

  method BuildChunkIndices(cu: seq<int>, size: int) returns (indices: seq<int>)
    requires size > 0 && Rising(cu)
    ensures indices == Flatten(Pairs(cu, size, Sequences(cu)))
    ensures forall i :: 0 <= i < |Pairs(cu, size, Sequences(cu))| ==>
              EntryIs(indices, i, Pairs(cu, size, Sequences(cu))[i])
  {
    indices := [];
    for s := 0 to Sequences(cu)
      invariant indices == Flatten(Pairs(cu, size, s))
    {
      ChunksNat(cu, size, s);
      var chunks := CeilDiv(cu[s + 1] - cu[s], size);
      FlattenJoin(Pairs(cu, size, s), ChunksOf(s, chunks));
      indices := AppendChunks(indices, s, chunks);
    }
    forall i | 0 <= i < |Pairs(cu, size, Sequences(cu))|
      ensures EntryIs(indices, i, Pairs(cu, size, Sequences(cu))[i])
    {
      FlattenEntry(Pairs(cu, size, Sequences(cu)), i);
    }
  }

  lemma {:induction false} PairsCount(cu: seq<int>, size: int, k: nat)
    requires size > 0 && k <= Sequences(cu) && Rising(cu)
    ensures |Pairs(cu, size, k)| == ChunkSum(cu, size, k)
  {
    if k > 0 {
      PairsCount(cu, size, k - 1);
      ChunksNat(cu, size, k - 1);
    }
  }

  predicate InRange(cu: seq<int>, size: int, p: Pair)
    requires size > 0
  {
    0 <= p.sequence && p.sequence + 1 < |cu| && 0 <= p.chunk < Chunks(cu, size, p.sequence)
  }

  lemma {:induction false} PairsMembers(cu: seq<int>, size: int, k: nat)
    requires size > 0 && k <= Sequences(cu) && Rising(cu)
    ensures NoDup(Pairs(cu, size, k))
    ensures forall p :: p in Pairs(cu, size, k) <==> InRange(cu, size, p) && p.sequence < k
  {
    if k > 0 {
      PairsMembers(cu, size, k - 1);
      ChunksNat(cu, size, k - 1);
      var front, added := Pairs(cu, size, k - 1), ChunksOf(k - 1, Chunks(cu, size, k - 1));
      forall p ensures p in added <==> InRange(cu, size, p) && p.sequence == k - 1 {
        if InRange(cu, size, p) && p.sequence == k - 1 { assert added[p.chunk] == p; }
      }
      NoDupAppend(front, added);
    }
  }

  // ----- the token ranges

  function First(cu: seq<int>, size: int, p: Pair): int
    requires 0 <= p.sequence < |cu|
  {
    cu[p.sequence] + p.chunk * size
  }

  function Past(cu: seq<int>, size: int, p: Pair): int
    requires 0 <= p.sequence && p.sequence + 1 < |cu|
  {
    Min(First(cu, size, p) + size, cu[p.sequence + 1])
  }

  /** The ranges are not empty, start at `from`, follow one another and end at `to`. */
  ghost predicate Tiles(cu: seq<int>, size: int, pairs: seq<Pair>, from: int, to: int) {
    && (forall i :: 0 <= i < |pairs| ==> 0 <= pairs[i].sequence && pairs[i].sequence + 1 < |cu|)
    && (forall i :: 0 <= i < |pairs| ==> First(cu, size, pairs[i]) < Past(cu, size, pairs[i]))
    && (pairs == [] ==> from == to)
    && (pairs != [] ==> First(cu, size, pairs[0]) == from && Past(cu, size, pairs[|pairs| - 1]) == to)
    && forall i, j :: 0 <= i < |pairs| - 1 && j == i + 1 ==> Past(cu, size, pairs[i]) == First(cu, size, pairs[j])
  }

  lemma TilesJoin(cu: seq<int>, size: int, a: seq<Pair>, b: seq<Pair>, from: int, middle: int, to: int)
    requires Tiles(cu, size, a, from, middle) && Tiles(cu, size, b, middle, to)
    ensures Tiles(cu, size, a + b, from, to)
  {
    hide First, Past;
    if a == [] { assert a + b == b; }
    if b == [] { assert a + b == a; }
  }

  /** The chunks of one sequence cut its tokens into runs of `size`, the last possibly shorter. */
  lemma OneSequence(cu: seq<int>, size: int, s: nat)
    requires size > 0 && s + 1 < |cu| && Rising(cu) && Chunks(cu, size, s) >= 0
    ensures Tiles(cu, size, ChunksOf(s, Chunks(cu, size, s)), cu[s], cu[s + 1])
  {
    ChunksNat(cu, size, s);
    var n := Chunks(cu, size, s);
    var pairs := ChunksOf(s, n);
    hide Chunks;
    forall i | 0 <= i < n
      ensures First(cu, size, pairs[i]) < Past(cu, size, pairs[i])
      ensures Past(cu, size, pairs[i]) == if i == n - 1 then cu[s + 1] else cu[s] + (i + 1) * size
    {
      assert (i + 1) * size == i * size + size;
      if i < n - 1 {
        Multiples(i + 1, n - 1, size);
      }
    }
  }

  lemma Multiples(a: nat, b: nat, size: int)
    requires a <= b && size > 0
    ensures a * size <= b * size
  {
    if a < b { RowMajorOrder(a, 0, b, 0, size); }
  }

  lemma NoTiles(cu: seq<int>, size: int)
    requires |cu| >= 1
    ensures Tiles(cu, size, [], cu[0], cu[0])
  {
  }

  /** The built chunks partition the tokens of all sequences: every token is in exactly one. */
  lemma {:induction false} ChunksTile(cu: seq<int>, size: int, k: nat)
    requires size > 0 && k < |cu| && Rising(cu)
    ensures Tiles(cu, size, Pairs(cu, size, k), cu[0], cu[k])
  {
    hide Tiles, Chunks;
    if k == 0 { NoTiles(cu, size); }
    if k > 0 {
      ChunksTile(cu, size, k - 1);
      ChunksNat(cu, size, k - 1);
      OneSequence(cu, size, k - 1);
      TilesJoin(cu, size, Pairs(cu, size, k - 1), ChunksOf(k - 1, Chunks(cu, size, k - 1)), cu[0], cu[k - 1], cu[k]);
    }
  }

  lemma {:induction false} TilesOrdered(cu: seq<int>, size: int, pairs: seq<Pair>, from: int, to: int, i: nat, j: nat)
    requires Tiles(cu, size, pairs, from, to) && i < j < |pairs|
    ensures Past(cu, size, pairs[i]) <= First(cu, size, pairs[j])
  {
    if i < j - 1 { TilesOrdered(cu, size, pairs, from, to, i, j - 1); }
  }

  /** Token x belongs to chunk p. */
  ghost predicate Holds(cu: seq<int>, size: int, p: Pair, x: int) {
    0 <= p.sequence && p.sequence + 1 < |cu| && First(cu, size, p) <= x < Past(cu, size, p)
  }

  /** Every token of an accepted batch lies in exactly one of the built chunks. */
  lemma OneChunkEach(cu: seq<int>, size: int, total: int, x: int) returns (i: nat)
    requires size > 0 && CuAccepted(cu, total) && 0 <= x < total
    ensures var built := Pairs(cu, size, Sequences(cu));
            && i < |built| && Holds(cu, size, built[i], x)
            && forall j :: 0 <= j < |built| && j != i ==> !Holds(cu, size, built[j], x)
  {
    var built := Pairs(cu, size, Sequences(cu));
    ChunksTile(cu, size, Sequences(cu));
    hide Pairs, First, Past;
    i := 0;
    while Past(cu, size, built[i]) <= x
      invariant i < |built| && First(cu, size, built[i]) <= x
      decreases |built| - i
    {
      i := i + 1;
    }
    forall j | 0 <= j < |built| && j != i ensures !Holds(cu, size, built[j], x) {
      if j < i { TilesOrdered(cu, size, built, 0, total, j, i); } else { TilesOrdered(cu, size, built, 0, total, i,
          j); }
    }
  }

  // ----- the checker

  function PairAt(indices: seq<int>, i: nat): Pair
    requires 2 * i + 1 < |indices|
  {
    Pair(indices[2 * i], indices[2 * i + 1])
  }

  function PairsOf(indices: seq<int>): (r: seq<Pair>)
    requires |indices| % 2 == 0
    ensures |r| == |indices| / 2
  {
    seq(|indices| / 2, i requires 0 <= i < |indices| / 2 => PairAt(indices, i))
  }

  ghost predicate ChunksAccepted(indices: seq<int>, cu: seq<int>, size: int)
    requires size > 0
  {
    && |indices| % 2 == 0 && |indices| / 2 == ChunkSum(cu, size, Sequences(cu))
    && forall i :: 0 <= i < |indices| / 2 ==> InRange(cu, size, PairsOf(indices)[i])
  }

  method SumChunks(cu: seq<int>, size: int) returns (sum: int)
    requires size > 0
    ensures sum == ChunkSum(cu, size, Sequences(cu))
  {
    sum := 0;
    for s := 0 to Sequences(cu)
      invariant sum == ChunkSum(cu, size, s)
    {
      sum := sum + CeilDiv(cu[s + 1] - cu[s], size);
    }
  }

  /** Entry i names a sequence and one of its chunks. */
  predicate EntryOk(indices: seq<int>, cu: seq<int>, size: int, i: nat)
    requires size > 0
  {
    && 2 * i + 1 < |indices|
    && var s, c := indices[2 * i], indices[2 * i + 1];
       0 <= s < |cu| - 1 && 0 <= c < CeilDiv(cu[s + 1] - cu[s], size)
  }

  /** A list is accepted exactly if it has as many entries as there are chunks, each a sequence and one
      of its chunks. */
  lemma AcceptedMeans(indices: seq<int>, cu: seq<int>, size: int)
    requires size > 0
    ensures ChunksAccepted(indices, cu, size) <==>
              && |indices| % 2 == 0 && |indices| / 2 == ChunkSum(cu, size, Sequences(cu))
              && forall i: nat :: i < |indices| / 2 ==> EntryOk(indices, cu, size, i)
  {
    hide ChunkSum, CeilDiv;
    if |indices| % 2 == 0 {
      forall i: nat | i < |indices| / 2
        ensures EntryOk(indices, cu, size, i) <==> InRange(cu, size, PairsOf(indices)[i])
      {
      }
    }
  }

  method CheckChunkIndices(indices: Option<seq<int>>, cu: Option<seq<int>>, size: int) returns (ok: bool)
    requires size > 0
    ensures ok <==> indices.None? || (cu.Some? && ChunksAccepted(indices.value, cu.value, size))
  {
    if indices.None? {
      return true;
    }
    var list := indices.value;
    if |list| % 2 != 0 || cu.None? {
      return false;
    }
    var c := cu.value;
    var expected := SumChunks(c, size);
    if |list| / 2 != expected {
      return false;
    }
    var i := 0;
    while i < |list| / 2
      invariant 0 <= i <= |list| / 2
      invariant forall j :: 0 <= j < i ==> InRange(c, size, PairsOf(list)[j])
    {
      var s, k := list[2 * i], list[2 * i + 1];
      assert PairsOf(list)[i] == Pair(s, k);
      if !(s >= 0 && s + 1 < |c|) {
        return false;
      }
      var chunks := CeilDiv(c[s + 1] - c[s], size);
      if !(k >= 0 && k < chunks) {
        return false;
      }
      i := i + 1;
    }
    return true;
  }

  /** n runs of `size` are the fewest that hold d tokens. */
  ghost predicate Fewest(n: int, d: int, size: int) { 0 <= n && d <= n * size && (n > 0 ==> (n - 1) * size < d) }

  /** The number of chunks.  Whether it comes from the lengths or from any accepted list, it is the
      number of chunks the builder makes; without lengths, the fewest that hold the sequence. */
  method TotalChunks(seqlen: int, size: int, cu: Option<seq<int>>, indices: Option<seq<int>>) returns (total: int)
    requires size > 0
    ensures cu.Some? && Rising(cu.value) && (indices.None? || ChunksAccepted(indices.value, cu.value, size)) ==>
              total == |Pairs(cu.value, size, Sequences(cu.value))|
    ensures cu.None? && indices.None? && seqlen >= 0 ==> Fewest(total, seqlen, size)
    ensures indices.Some? && |indices.value| % 2 == 0 ==> total == |PairsOf(indices.value)|
    ensures indices.None? && cu.Some? ==> total == ChunkSum(cu.value, size, Sequences(cu.value))
  {
    if cu.Some? && Rising(cu.value) { PairsCount(cu.value, size, Sequences(cu.value)); }
    if indices.Some? {
      return |indices.value| / 2;
    }
    if cu.None? {
      if seqlen >= 0 { CeilBounds(seqlen, size); }
      return CeilDiv(seqlen, size);
    }
    total := SumChunks(cu.value, size);
  }

  lemma {:induction false} FlattenAt(pairs: seq<Pair>, i: nat)
    requires i < |pairs|
    ensures PairAt(Flatten(pairs), i) == pairs[i]
  {
    var n := |pairs| - 1;
    if i < n {
      FlattenAt(pairs[..n], i);
      assert Flatten(pairs)[2 * i] == Flatten(pairs[..n])[2 * i] && Flatten(pairs)[2 * i + 1]
             == Flatten(pairs[..n])[2 * i + 1];
    }
  }

  lemma PairsOfFlatten(pairs: seq<Pair>)
    ensures PairsOf(Flatten(pairs)) == pairs
  {
    forall i | 0 <= i < |pairs| ensures PairsOf(Flatten(pairs))[i] == pairs[i] { FlattenAt(pairs, i); }
  }

  /** What the builder builds the checker accepts, and both totals agree. */
  lemma BuiltAccepted(cu: seq<int>, size: int)
    requires size > 0 && Rising(cu)
    ensures var built := Flatten(Pairs(cu, size, Sequences(cu)));
            ChunksAccepted(built, cu, size) && |built| / 2 == ChunkSum(cu, size, Sequences(cu))
  {
    var pairs := Pairs(cu, size, Sequences(cu));
    PairsCount(cu, size, Sequences(cu));
    PairsMembers(cu, size, Sequences(cu));
    PairsOfFlatten(pairs);
    forall i | 0 <= i < |pairs| ensures InRange(cu, size, pairs[i]) { assert pairs[i] in pairs; }
  }

  /** The checker counts pairs and checks their ranges but not repeats: an accepted list is a
      rearrangement of the built one exactly when no pair occurs twice in it. */
  lemma AcceptedIsPermutation(indices: seq<int>, cu: seq<int>, size: int)
    requires size > 0 && Rising(cu) && ChunksAccepted(indices, cu, size)
    ensures NoDup(PairsOf(indices)) <==> multiset(PairsOf(indices)) == multiset(Pairs(cu, size, Sequences(cu)))
  {
    hide Pairs, PairsOf, InRange, ChunkSum;
    var given, built := PairsOf(indices), Pairs(cu, size, Sequences(cu));
    PairsCount(cu, size, Sequences(cu));
    PairsMembers(cu, size, Sequences(cu));
    if NoDup(given) {
      AllInRange(indices, cu, size);
      SameElements(given, built);
    }
    NoDupByMultiset(given);
    NoDupByMultiset(built);
  }

  lemma AllInRange(indices: seq<int>, cu: seq<int>, size: int)
    requires size > 0 && ChunksAccepted(indices, cu, size)
    ensures forall p :: p in PairsOf(indices) ==> InRange(cu, size, p) && p.sequence < Sequences(cu)
  {
  }

  lemma SameElements(a: seq<Pair>, b: seq<Pair>)
    requires NoDup(a) && NoDup(b) && |a| == |b| && forall p :: p in a ==> p in b
    ensures multiset(a) == multiset(b)
  {
    NoDupCardinality(a);
    NoDupCardinality(b);
    var sa := set p | p in a;
    var sb := set p | p in b;
    SubsetCardinality(sa, sb);
    NoDupByMultiset(a);
    NoDupByMultiset(b);
    forall p ensures multiset(a)[p] == multiset(b)[p] {
      assert p in sa <==> p in sb;
      assert p in a <==> p in multiset(a);
      assert p in b <==> p in multiset(b);
    }
  }

  /** A list that repeats one chunk and leaves out another is accepted, and then the tokens of the
      latter are in none of the listed chunks. */
  lemma RepeatAccepted()
    ensures ChunksAccepted([0, 0, 0, 0], [0, 2], 1) && CuAccepted([0, 2], 2)
    ensures var given := PairsOf([0, 0, 0, 0]);
            && !NoDup(given) && Pair(0, 1) !in given && Pair(0, 1) in Pairs([0, 2], 1, 1)
            && forall p :: p in given ==> !Holds([0, 2], 1, p, 1)
  {
    var list, cu := [0, 0, 0, 0], [0, 2];
    assert Chunks(cu, 1, 0) == 2;
    assert ChunkSum(cu, 1, 1) == ChunkSum(cu, 1, 0) + 2;
    assert PairsOf(list) == [Pair(0, 0), Pair(0, 0)];
    assert PairsOf(list)[0] == PairsOf(list)[1];
    PairsMembers(cu, 1, 1);
    assert InRange(cu, 1, Pair(0, 1));
  }
}
