/** Sharing the allowed CPUs among NPUs, independently of which NPUs a process can see. */
module CpuBinding {
  import opened Lists

  /** allowed and logic are sorted and without repeats; a CPU is on node nodeOf[cpu]. */
  datatype Device = Device(allowed: seq<int>, logic: seq<int>, affinity: map<int, seq<int>>, nodeOf: map<int, int>)

  ghost predicate Increasing(s: seq<int>) { forall i, j :: 0 <= i < j < |s| ==> s[i] < s[j] }

  ghost predicate Disjoint(a: seq<int>, b: seq<int>) { forall x :: x in a ==> x !in b }

  // ----- global slices

  /** How many NPUs the slices are made for; only without any topology does it depend on what is visible. */
  function TotalNpus(d: Device, running: seq<int>): nat {
    if |d.logic| > 0 then |d.logic| else if |d.affinity| > 0 then |d.affinity| else |running|
  }

  function SliceStart(cpus: nat, npus: nat, id: nat): nat
    requires npus > 0
  {
    id * (cpus / npus) + Min(id, cpus % npus)
  }

  function SliceLength(cpus: nat, npus: nat, id: nat): nat
    requires npus > 0
  {
    cpus / npus + if id < cpus % npus then 1 else 0
  }

  /** The slices follow one another and fill the CPUs; their lengths differ by at most one. */
  lemma SlicesTile(cpus: nat, npus: nat, id: nat)
    requires npus > 0 && id < npus
    ensures SliceStart(cpus, npus, 0) == 0 && SliceStart(cpus, npus, npus) == cpus
    ensures SliceStart(cpus, npus, id) + SliceLength(cpus, npus, id) == SliceStart(cpus, npus, id + 1) <= cpus
    ensures cpus / npus <= SliceLength(cpus, npus, id) <= cpus / npus + 1
  {
    var base, extra := cpus / npus, cpus % npus;
    assert cpus == npus * base + extra;
    assert (id + 1) * base == id * base + base;
    StartGrows(cpus, npus, id + 1, npus);
  }

  lemma {:induction false} StartGrows(cpus: nat, npus: nat, i: nat, j: nat)
    requires npus > 0 && i <= j
    ensures SliceStart(cpus, npus, i) <= SliceStart(cpus, npus, j)
    decreases j
  {
    if i < j {
      StartGrows(cpus, npus, i, j - 1);
      assert (j - 1) * (cpus / npus) + cpus / npus == j * (cpus / npus);
    }
  }

  function Slice(allowed: seq<int>, npus: nat, id: nat): seq<int>
    requires npus > 0 && id < npus
  {
    SlicesTile(|allowed|, npus, id);
    allowed[SliceStart(|allowed|, npus, id)..SliceStart(|allowed|, npus, id) + SliceLength(|allowed|, npus, id)]
  }

  lemma SlicesDisjoint(allowed: seq<int>, npus: nat, i: nat, j: nat)
    requires npus > 0 && i < npus && j < npus && i != j && Increasing(allowed)
    ensures Disjoint(Slice(allowed, npus, i), Slice(allowed, npus, j))
  {
    SlicesTile(|allowed|, npus, i);
    SlicesTile(|allowed|, npus, j);
    if i < j { StartGrows(|allowed|, npus, i + 1, j); } else { StartGrows(|allowed|, npus, j + 1, i); }
    hide SliceStart, SliceLength;
  }

  /** Every allowed CPU is in the slice of some NPU. */
  lemma {:induction false} SlicesCover(allowed: seq<int>, npus: nat, k: nat, n: nat) returns (id: nat)
    requires 0 < n <= npus && k < SliceStart(|allowed|, npus, n) <= |allowed|
    ensures id < n && SliceStart(|allowed|, npus, id) <= k < SliceStart(|allowed|, npus, id)
            + SliceLength(|allowed|, npus, id)
    decreases n
  {
    SlicesTile(|allowed|, npus, n - 1);
    hide SliceStart, SliceLength;
    if k >= SliceStart(|allowed|, npus, n - 1) {
      id := n - 1;
    } else {
      SliceZero(|allowed|, npus);
      id := SlicesCover(allowed, npus, k, n - 1);
    }
  }

  lemma SliceZero(cpus: nat, npus: nat)
    requires npus > 0
    ensures SliceStart(cpus, npus, 0) == 0
  {
  }

  /** The first `extra` NPUs take one CPU more than the others. */
  method SliceFor(allowed: seq<int>, npus: nat, id: nat) returns (slice: seq<int>)
    requires npus > 0 && id < npus
    ensures slice == Slice(allowed, npus, id)
  {
    var base, extra := |allowed| / npus, |allowed| % npus;
    SlicesTile(|allowed|, npus, id);
    var start := id * base + (if id < extra then id else extra);
    var take := base + (if id < extra then 1 else 0);
    slice := allowed[start..start + take];
  }

  /** Every NPU can have m CPUs exactly if there are m for each. */
  lemma EnoughForAll(cpus: nat, npus: nat, m: nat)
    requires npus > 0
    ensures cpus / npus >= m <==> cpus >= npus * m
  {
    var base := cpus / npus;
    assert cpus == npus * base + cpus % npus;
    if base >= m { MulGrows(npus, m, base); } else { MulGrows(npus, base + 1, m); }
  }

  lemma MulGrows(n: nat, a: nat, b: nat)
    requires a <= b
    ensures n * a <= n * b
  {
    assert n * b == n * a + n * (b - a);
  }

  /** The NPUs are numbered below `total`, and there are minCpus CPUs for each number. */
  predicate CanSlice(d: Device, total: nat, minCpus: nat, seen: seq<int>) {
    |d.allowed| >= total * minCpus && forall i :: 0 <= i < |seen| ==> 0 <= seen[i] < total
  }

  /** The pools `was`, with the slices of the NPUs in `seen` put in. */
  ghost predicate Sliced(allowed: seq<int>, npus: nat, seen: seq<int>, was: map<int, seq<int>>, pool: map<int,
                         seq<int>>)
    requires npus > 0
  {
    && pool.Keys == was.Keys + (set n | n in seen)
    && (forall n :: n in seen ==> 0 <= n < npus && pool[n] == Slice(allowed, npus, n))
    && forall n :: n in was && n !in seen ==> pool[n] == was[n]
  }

  lemma SlicedNone(allowed: seq<int>, npus: nat, was: map<int, seq<int>>)
    requires npus > 0
    ensures Sliced(allowed, npus, [], was, was)
  {
  }

  lemma SlicedMore(allowed: seq<int>, npus: nat, seen: seq<int>, i: nat, was: map<int, seq<int>>, pool: map<int,
                   seq<int>>)
    requires npus > 0 && i < |seen| && 0 <= seen[i] < npus && Sliced(allowed, npus, seen[..i], was, pool)
    ensures Sliced(allowed, npus, seen[..i + 1], was, pool[seen[i] := Slice(allowed, npus, seen[i])])
  {
    hide Slice;
    assert seen[..i + 1] == seen[..i] + [seen[i]];
  }

  class CpuAlloc {
    var npuCpuPool: map<int, seq<int>>
    var assignMain: map<int, seq<int>>
    var assignAcl: map<int, seq<int>>
    var assignRel: map<int, seq<int>>

    constructor ()
      ensures npuCpuPool == map[] && assignMain == map[] && assignAcl == map[] && assignRel == map[]
    {
      npuCpuPool, assignMain, assignAcl, assignRel := map[], map[], map[], map[];
    }

    /** Give every visible NPU the slice of its global id; false stands for a raised error. */
    method BuildGlobalSlices(d: Device, running: seq<int>, minCpus: nat) returns (ok: bool)
      modifies this`npuCpuPool
      ensures |running| == 0 || |d.allowed| == 0 ==> ok && npuCpuPool == old(npuCpuPool)
      ensures |running| > 0 && |d.allowed| > 0 ==>
                var npus := TotalNpus(d, running);
                && npus > 0
                && (|d.logic| > 0 ==> (ok <==> CanSlice(d, |d.logic|, minCpus, running)))
                && (|d.logic| == 0 && |d.affinity| > 0 ==> (ok <==> CanSlice(d, |d.affinity|, minCpus, running)))
                && (|d.logic| == |d.affinity| == 0 ==> (ok <==> CanSlice(d, |running|, minCpus, running)))
                && (ok ==> Sliced(d.allowed, npus, running, old(npuCpuPool), npuCpuPool))
    {
      hide Slice, Sliced;
      ok := true;
      if |running| == 0 || |d.allowed| == 0 {
        return;
      }
      var npus := TotalNpus(d, running);
      EnoughForAll(|d.allowed|, npus, minCpus);
      if |d.allowed| / npus < minCpus {
        return false;
      }
      ghost var was := npuCpuPool;
      SlicedNone(d.allowed, npus, was);
      for i := 0 to |running|
        invariant forall j :: 0 <= j < i ==> 0 <= running[j] < npus
        invariant Sliced(d.allowed, npus, running[..i], was, npuCpuPool)
      {
        var npu := running[i];
        if npu < 0 || npu >= npus {
          return false;
        }
        var slice := SliceFor(d.allowed, npus, npu);
        SlicedMore(d.allowed, npus, running, i, was, npuCpuPool);
        npuCpuPool := npuCpuPool[npu := slice];
      }
      assert running[..|running|] == running;
    }

    /** Give every visible NPU of an Ascend 950 its cluster, or leave the pools as they are. */
    method BuildClusters(d: Device, uvb: set<int>, size: nat, running: seq<int>) returns (r: Outcome)
      requires size > 0 && Increasing(d.logic)
      modifies this`npuCpuPool
      ensures r.Built? <==> Succeeds(d, uvb, size, running)
      ensures r.Raised? <==> |d.affinity| > 0 && exists k :: RaisesAt(d, Candidates(d, running), k)
      ensures !r.Built? ==> npuCpuPool == old(npuCpuPool)
      ensures r.Built? ==> npuCpuPool.Keys == set n | n in running
      ensures r.Built? ==> forall n :: n in running ==> Gives(d, uvb, size, running, npuCpuPool, n)
    {
      hide Succeeds, NpuNode, Candidates, Gives, Grouped, Filter, RaisesAt, SkipsAt;
      if |d.affinity| == 0 {
        NoAffinity(d, uvb, size, running);
        return Skipped;
      }
      var cands := Candidates(d, running);
      var nodes, groups;
      r, nodes, groups := GroupByNode(d, cands);
      if !r.Built? {
        NoNode(d, uvb, size, running);
        return;
      }
      var ok, clusters := AssignClusters(d, uvb, size, running, nodes, groups);
      if !ok {
        NotEnough(d, uvb, size, running);
        return Skipped;
      }
      var pool: map<int, seq<int>> := map[];
      for i := 0 to |running|
        invariant pool.Keys == set n | n in running[..i]
        invariant forall n :: n in pool ==> n in clusters && pool[n] == clusters[n]
      {
        assert running[..i + 1] == running[..i] + [running[i]];
        if running[i] !in clusters {
          NotLogic(d, uvb, size, running, running[i]);
          return Skipped;
        }
        pool := pool[running[i] := clusters[running[i]]];
      }
      assert running[..|running|] == running;
      SucceedsIf(d, uvb, size, running);
      npuCpuPool := pool;
      forall n | n in running ensures Gives(d, uvb, size, running, npuCpuPool, n) {
        assert n in pool;
        GivesSame(d, uvb, size, running, clusters, pool, n);
      }
    }

    /** Split each pool into roles; false stands for a raised error. */
    method AllocateDefaultRoles(npus: seq<int>, reserveIrq: bool) returns (ok: bool)
      requires forall i :: 0 <= i < |npus| ==> npus[i] in npuCpuPool
      modifies this`assignMain, this`assignAcl, this`assignRel
      ensures ok <==> forall i :: 0 <= i < |npus| ==> |npuCpuPool[npus[i]]| >= MinCpus(reserveIrq)
      ensures ok ==> forall i :: 0 <= i < |npus| ==>
                var n := npus[i];
                && n in assignMain && n in assignAcl && n in assignRel
                && SplitIntoRoles(npuCpuPool[n], assignMain[n], assignAcl[n], assignRel[n], reserveIrq)
    {
      for i := 0 to |npus|
        invariant forall j :: 0 <= j < i ==> |npuCpuPool[npus[j]]| >= MinCpus(reserveIrq)
        invariant forall j :: 0 <= j < i ==>
                    var n := npus[j];
                    && n in assignMain && n in assignAcl && n in assignRel
                    && SplitIntoRoles(npuCpuPool[n], assignMain[n], assignAcl[n], assignRel[n], reserveIrq)
      {
        var npu, pool := npus[i], npuCpuPool[npus[i]];
        if |pool| < MinCpus(reserveIrq) {
          return false;
        }
        var n := |pool|;
        var main := if reserveIrq then pool[2..n - 2] else pool[..n - 2];
        assert pool == pool[..if reserveIrq then 2 else 0] + main + [pool[n - 2]] + [pool[n - 1]];
        assignMain := assignMain[npu := main];
        assignAcl := assignAcl[npu := [pool[n - 2]]];
        assignRel := assignRel[npu := [pool[n - 1]]];
      }
      return true;
    }
  }

  function MinCpus(reserveIrq: bool): nat { if reserveIrq then 5 else 3 }

  /** The pool is the CPUs kept for interrupts, if any, then the main part, which is never empty,
      then one CPU each for the acl and release threads. */
  ghost predicate SplitIntoRoles(pool: seq<int>, main: seq<int>, acl: seq<int>, rel: seq<int>, reserveIrq: bool) {
    && |main| >= 1 && |acl| == 1 && |rel| == 1 && |pool| >= MinCpus(reserveIrq)
    && pool == pool[..if reserveIrq then 2 else 0] + main + acl + rel
  }

  /** The roles of one pool share no CPU with one another or with the CPUs kept for interrupts. */
  lemma RolesDisjoint(pool: seq<int>, main: seq<int>, acl: seq<int>, rel: seq<int>, reserveIrq: bool)
    requires SplitIntoRoles(pool, main, acl, rel, reserveIrq) && Increasing(pool)
    ensures Disjoint(main, acl) && Disjoint(main, rel) && Disjoint(acl, rel)
    ensures var irq := pool[..if reserveIrq then 2 else 0];
            |irq| == (if reserveIrq then 2 else 0) && Disjoint(irq, main) && Disjoint(irq, acl) && Disjoint(irq, rel)
  {
    var k := if reserveIrq then 2 else 0;
    var n := |main|;
    assert main == pool[k..k + n] && acl == [pool[k + n]] && rel == [pool[k + n + 1]];
  }

  // ----- which NPUs a process can see

  datatype Option<T> = None | Some(value: T)

  /** Logical ids by NPU and chip, as the mapping command lists them. */
  type ChipMap = map<int, map<int, int>>

  /** A line of the process table; older tables have no chip column. */
  datatype ProcessLine = ProcessLine(npu: int, chip: Option<int>)

  predicate MapsTo(info: ChipMap, npu: int, chip: int, n: int) {
    npu in info && chip in info[npu] && info[npu][chip] == n
  }

  ghost predicate IsLogicId(info: ChipMap, n: int) { exists npu, chip :: MapsTo(info, npu, chip, n) }

  lemma SomeMember(s: set<int>)
    requires s != {}
    ensures exists x :: x in s
  {
    assert (forall x :: x !in s) ==> s == {};
  }

  lemma SomeKey(chips: map<int, int>)
    requires |chips| > 0
    ensures exists c :: c in chips
  {
    assert (forall c :: c !in chips) ==> chips == map[];
  }

  /** The line belongs to logical NPU n. */
  ghost predicate ResolvesTo(info: ChipMap, line: ProcessLine, n: int) {
    if line.chip.Some? then MapsTo(info, line.npu, line.chip.value, n)
    else line.npu in info && |info[line.npu]| == 1 && exists chip :: MapsTo(info, line.npu, chip, n)
  }

  lemma ResolvesOnce(info: ChipMap, line: ProcessLine, m: int, n: int)
    requires ResolvesTo(info, line, m) && ResolvesTo(info, line, n)
    ensures m == n
  {
    if line.chip.None? {
      var a :| MapsTo(info, line.npu, a, m);
      var b :| MapsTo(info, line.npu, b, n);
      OneKey(info[line.npu], a, b);
    }
  }

  lemma OneKey(chips: map<int, int>, a: int, b: int)
    requires |chips| == 1 && a in chips && b in chips
    ensures a == b
  {
    assert |chips.Keys - {a}| == 0;
    assert b in chips.Keys;
  }

  /** The logical id of a process; None stands for a raised error. */
  method ResolveLogicId(info: ChipMap, line: ProcessLine) returns (id: Option<int>)
    ensures id.Some? ==> ResolvesTo(info, line, id.value)
    ensures id.None? ==> forall n :: !ResolvesTo(info, line, n)
  {
    if line.npu !in info {
      return None;
    }
    var chips := info[line.npu];
    if line.chip.Some? {
      return if line.chip.value in chips then Some(chips[line.chip.value]) else None;
    }
    if |chips| != 1 {
      return None;
    }
    SomeKey(chips);
    var chip :| chip in chips;
    assert MapsTo(info, line.npu, chip, chips[chip]);
    return Some(chips[chip]);
  }

  /** Logical NPU n runs one of the processes and is visible. */
  ghost predicate Runs(info: ChipMap, table: seq<ProcessLine>, visible: Option<set<int>>, n: int) {
    (visible.Some? ==> n in visible.value) && exists i :: 0 <= i < |table| && ResolvesTo(info, table[i], n)
  }

  ghost predicate Unresolved(info: ChipMap, line: ProcessLine) { forall n :: !ResolvesTo(info, line, n) }

  /** The visible NPUs that run processes; an error is raised exactly if a line cannot be resolved or
      there is no such NPU. */
  method RunningNpus(info: ChipMap, table: seq<ProcessLine>, visible: Option<set<int>>)
      returns (running: Option<set<int>>)
    ensures running.Some? ==> forall n :: n in running.value <==> Runs(info, table, visible, n)
    ensures running.None? <==>
              (exists i :: 0 <= i < |table| && Unresolved(info, table[i])) || forall n :: !Runs(info, table, visible, n)
  {
    hide ResolvesTo;
    var found: set<int> := {};
    for i := 0 to |table|
      invariant forall n :: n in found <==> exists j :: 0 <= j < i && ResolvesTo(info, table[j], n)
      invariant forall j :: 0 <= j < i ==> !Unresolved(info, table[j])
    {
      var id := ResolveLogicId(info, table[i]);
      if id.None? {
        assert Unresolved(info, table[i]);
        return None;
      }
      forall n ensures ResolvesTo(info, table[i], n) <==> n == id.value {
        if ResolvesTo(info, table[i], n) { ResolvesOnce(info, table[i], n, id.value); }
      }
      found := found + {id.value};
    }
    if visible.Some? {
      found := visible.value * found;
    }
    assert forall n :: n in found <==> Runs(info, table, visible, n);
    if found == {} {
      return None;
    }
    SomeMember(found);
    return Some(found);
  }

  predicate AtMost(a: int, b: int) { a <= b }

  /** The elements of a set in increasing order. */
  method SortedSet(s: set<int>) returns (r: seq<int>)
    ensures Increasing(r) && forall x :: x in r <==> x in s
  {
    var rest, list := s, [];
    while rest != {}
      invariant rest <= s && NoDup(list) && forall x :: x in list <==> x in s && x !in rest
      decreases rest
    {
      SomeMember(rest);
      var x :| x in rest;
      NoDupAppend(list, [x]);
      list, rest := list + [x], rest - {x};
    }
    r := Sort(AtMost, list);
    SortSame(AtMost, list);
    SortOrdered(AtMost, list);
    StrictlyIncreasing(r, list);
  }

  lemma StrictlyIncreasing(r: seq<int>, list: seq<int>)
    requires InOrderOf(AtMost, r) && multiset(r) == multiset(list) && NoDup(list)
    ensures Increasing(r)
  {
    NoDupByMultiset(r);
    NoDupByMultiset(list);
  }

  /** The logical ids of one NPU. */
  method ChipIds(info: ChipMap, npu: int) returns (ids: set<int>)
    requires npu in info
    ensures forall n :: n in ids <==> exists chip :: MapsTo(info, npu, chip, n)
  {
    var chips := info[npu].Keys;
    ids := {};
    while chips != {}
      invariant chips <= info[npu].Keys
      invariant forall n :: n in ids <==> exists chip :: chip !in chips && MapsTo(info, npu, chip, n)
      decreases chips
    {
      SomeMember(chips);
      var chip :| chip in chips;
      assert MapsTo(info, npu, chip, info[npu][chip]);
      ids, chips := ids + {info[npu][chip]}, chips - {chip};
    }
  }

  /** The logical ids that the mapping lists, in increasing order. */
  method AllLogicNpus(info: ChipMap) returns (logic: seq<int>)
    ensures Increasing(logic) && forall n :: n in logic <==> IsLogicId(info, n)
  {
    var npus, ids := info.Keys, {};
    while npus != {}
      invariant npus <= info.Keys
      invariant forall n :: n in ids <==> exists npu, chip :: npu !in npus && MapsTo(info, npu, chip, n)
      decreases npus
    {
      SomeMember(npus);
      var npu :| npu in npus;
      var more := ChipIds(info, npu);
      ids, npus := ids + more, npus - {npu};
    }
    logic := SortedSet(ids);
  }

  /** What a process learns when it starts: all logical NPUs, and those it runs on, which are some of them. */
  method StartProcess(info: ChipMap, table: seq<ProcessLine>, visible: Option<set<int>>)
    returns (r: Option<(seq<int>, seq<int>)>)
    ensures r.None? <==>
              (exists i :: 0 <= i < |table| && Unresolved(info, table[i])) || forall n :: !Runs(info, table, visible, n)
    ensures r.Some? ==> Increasing(r.value.0) && forall n :: n in r.value.0 <==> IsLogicId(info, n)
    ensures r.Some? ==> Increasing(r.value.1) && forall n :: n in r.value.1 <==> Runs(info, table, visible, n)
    ensures r.Some? ==> StartedWith(r.value.0, r.value.1)
  {
    hide Unresolved, Increasing, ResolvesTo, IsLogicId;
    var running := RunningNpus(info, table, visible);
    if running.None? {
      return None;
    }
    var seen := SortedSet(running.value);
    var logic := AllLogicNpus(info);
    forall n | n in seen ensures n in logic { RunsAreLogic(info, table, visible, n); }
    ghost var n :| Runs(info, table, visible, n);
    assert n in seen;
    return Some((logic, seen));
  }

  lemma RunsAreLogic(info: ChipMap, table: seq<ProcessLine>, visible: Option<set<int>>, n: int)
    requires Runs(info, table, visible, n)
    ensures IsLogicId(info, n)
  {
    var i :| 0 <= i < |table| && ResolvesTo(info, table[i], n);
    if table[i].chip.Some? { assert MapsTo(info, table[i].npu, table[i].chip.value, n); }
  }

  /** A process sees some of the logical NPUs. */
  ghost predicate StartedWith(logic: seq<int>, seen: seq<int>) { seen != [] && forall n :: n in seen ==> n in logic }

  // ----- what two processes get

  /** NPU n gets its slice in a process that sees `seen` and does not fail. */
  predicate Gets(d: Device, seen: seq<int>, minCpus: nat, n: int) {
    var npus := TotalNpus(d, seen);
    n in seen && npus > 0 && |d.allowed| / npus >= minCpus && forall i :: 0 <= i < |seen| ==> 0 <= seen[i] < npus
  }

  function SliceIn(d: Device, seen: seq<int>, minCpus: nat, n: int): seq<int>
    requires Gets(d, seen, minCpus, n)
  {
    Slice(d.allowed, TotalNpus(d, seen), n)
  }

  ghost predicate NeverOverlap(d: Device, minCpus: nat) {
    forall seenA, seenB, a, b :: a != b && Gets(d, seenA, minCpus, a) && Gets(d, seenB, minCpus, b) ==>
      Disjoint(SliceIn(d, seenA, minCpus, a), SliceIn(d, seenB, minCpus, b))
  }

  /** The device of a process that has started and sees `seen`; `StartProcess` ensures it. */
  ghost predicate Started(d: Device, seen: seq<int>) { StartedWith(d.logic, seen) }

  /** However many processes start on a host and whatever each of them sees, no two ever give the
      same CPU to different NPUs, and an NPU that two of them see has the same slice in both. */
  lemma StartedNeverOverlap(d: Device, minCpus: nat, seenA: seq<int>, seenB: seq<int>, a: int, b: int)
    requires Increasing(d.allowed) && Started(d, seenA) && Started(d, seenB)
    requires Gets(d, seenA, minCpus, a) && Gets(d, seenB, minCpus, b)
    ensures a != b ==> Disjoint(SliceIn(d, seenA, minCpus, a), SliceIn(d, seenB, minCpus, b))
    ensures a == b ==> SliceIn(d, seenA, minCpus, a) == SliceIn(d, seenB, minCpus, b)
  {
    assert seenA[0] in d.logic;
    if a != b { SlicesDisjoint(d.allowed, TotalNpus(d, seenA), a, b); }
  }

  /** On a host whose logical NPUs are 0, 1, ..., with enough CPUs for each, every process gets slices
      for all it sees; together the NPUs share out all allowed CPUs, in the order of their ids, as
      evenly as can be with the larger shares first. */
  lemma HostShared(d: Device, minCpus: nat, seen: seq<int>, n: nat)
    requires Started(d, seen) && d.logic == Iota(|d.logic|) && |d.allowed| >= |d.logic| * minCpus && n in seen
    ensures |d.logic| > 0 && Gets(d, seen, minCpus, n)
    ensures |SliceIn(d, seen, minCpus, n)|
            == |d.allowed| / |d.logic| + if n < |d.allowed| % |d.logic| then 1 else 0
    ensures |SliceIn(d, seen, minCpus, n)| >= minCpus
  {
    SeesLogic(d, seen);
    EnoughForAll(|d.allowed|, |d.logic|, minCpus);
    assert Gets(d, seen, minCpus, n);
    SliceSize(d.allowed, |d.logic|, n);
    hide Slice, Gets;
  }

  lemma SeesLogic(d: Device, seen: seq<int>)
    requires Started(d, seen) && d.logic == Iota(|d.logic|)
    ensures |d.logic| > 0 && forall i :: 0 <= i < |seen| ==> 0 <= seen[i] < |d.logic|
  {
    forall i | 0 <= i < |seen| ensures 0 <= seen[i] < |d.logic| {
      assert seen[i] in seen;
      var j :| 0 <= j < |d.logic| && d.logic[j] == seen[i];
    }
    assert 0 <= seen[0] < |d.logic|;
  }

  lemma SliceSize(allowed: seq<int>, npus: nat, n: nat)
    requires npus > 0 && n < npus
    ensures |Slice(allowed, npus, n)| == |allowed| / npus + if n < |allowed| % npus then 1 else 0
  {
    SlicesTile(|allowed|, npus, n);
  }

  lemma EveryCpuGiven(d: Device, minCpus: nat, k: nat) returns (n: nat)
    requires d.logic == Iota(|d.logic|) != [] && |d.allowed| >= |d.logic| * minCpus && k < |d.allowed|
    ensures n in d.logic && Gets(d, d.logic, minCpus, n) && d.allowed[k] in SliceIn(d, d.logic, minCpus, n)
  {
    EnoughForAll(|d.allowed|, |d.logic|, minCpus);
    SlicesTile(|d.allowed|, |d.logic|, 0);
    n := SlicesCover(d.allowed, |d.logic|, k, |d.logic|);
    SlicesTile(|d.allowed|, |d.logic|, n);
    hide SliceStart, SliceLength;
    assert d.logic[n] == n;
    var start := SliceStart(|d.allowed|, |d.logic|, n);
    assert SliceIn(d, d.logic, minCpus, n)[k - start] == d.allowed[k];
  }

  /** CPUs go to the NPUs in the order of their ids. */
  lemma SharesInOrder(d: Device, minCpus: nat, seenA: seq<int>, seenB: seq<int>, a: nat, b: nat, x: int, y: int)
    requires Increasing(d.allowed) && Started(d, seenA) && Started(d, seenB) && a < b
    requires Gets(d, seenA, minCpus, a) && Gets(d, seenB, minCpus, b)
    requires x in SliceIn(d, seenA, minCpus, a) && y in SliceIn(d, seenB, minCpus, b)
    ensures x < y
  {
    assert seenA[0] in d.logic;
    SlicesTile(|d.allowed|, |d.logic|, a);
    SlicesTile(|d.allowed|, |d.logic|, b);
    StartGrows(|d.allowed|, |d.logic|, a + 1, b);
    hide SliceStart, SliceLength;
  }

  /** So no CPU has a role for two NPUs, whichever processes bind them. */
  lemma RolesNeverShared(d: Device, reserveIrq: bool, seenA: seq<int>, seenB: seq<int>, a: int, b: int, mainA: seq<int>,
                         aclA: seq<int>, relA: seq<int>, mainB: seq<int>, aclB: seq<int>, relB: seq<int>)
    requires Increasing(d.allowed) && Started(d, seenA) && Started(d, seenB) && a != b
    requires Gets(d, seenA, MinCpus(reserveIrq), a) && Gets(d, seenB, MinCpus(reserveIrq), b)
    requires SplitIntoRoles(SliceIn(d, seenA, MinCpus(reserveIrq), a), mainA, aclA, relA, reserveIrq)
    requires SplitIntoRoles(SliceIn(d, seenB, MinCpus(reserveIrq), b), mainB, aclB, relB, reserveIrq)
    ensures Disjoint(mainA + aclA + relA, mainB + aclB + relB)
  {
    hide SliceIn, Gets, Increasing, Started;
    StartedNeverOverlap(d, MinCpus(reserveIrq), seenA, seenB, a, b);
    RolesInPool(SliceIn(d, seenA, MinCpus(reserveIrq), a), mainA, aclA, relA, reserveIrq);
    RolesInPool(SliceIn(d, seenB, MinCpus(reserveIrq), b), mainB, aclB, relB, reserveIrq);
  }

  lemma RolesInPool(pool: seq<int>, main: seq<int>, acl: seq<int>, rel: seq<int>, reserveIrq: bool)
    requires SplitIntoRoles(pool, main, acl, rel, reserveIrq)
    ensures forall x :: x in main + acl + rel ==> x in pool
  {
    var k := if reserveIrq then 2 else 0;
    assert pool[k..] == main + acl + rel;
  }

  /** The slicing function alone, on devices that no process starts with as well: it never gives CPUs
      of one NPU to another exactly when the topology tells how many NPUs there are, or there are too
      few CPUs for any second NPU. */
  lemma NeverOverlapExactly(d: Device, minCpus: nat)
    requires Increasing(d.allowed) && minCpus >= 1
    ensures NeverOverlap(d, minCpus) <==> |d.logic| > 0 || |d.affinity| > 0 || |d.allowed| < 2 * minCpus
  {
    if |d.logic| > 0 || |d.affinity| > 0 {
      forall seenA, seenB, a, b | a != b && Gets(d, seenA, minCpus, a) && Gets(d, seenB, minCpus, b)
        ensures Disjoint(SliceIn(d, seenA, minCpus, a), SliceIn(d, seenB, minCpus, b))
      {
        SlicesDisjoint(d.allowed, TotalNpus(d, seenA), a, b);
      }
    } else if |d.allowed| < 2 * minCpus {
      forall seen, n | Gets(d, seen, minCpus, n) ensures n == 0 { OnlyOne(d, seen, minCpus, n); }
    } else {
      BlindOverlap(d, minCpus);
    }
  }

  lemma OnlyOne(d: Device, seen: seq<int>, minCpus: nat, n: int)
    requires |d.logic| == 0 && |d.affinity| == 0 && |d.allowed| < 2 * minCpus && Gets(d, seen, minCpus, n)
    ensures n == 0
  {
    var npus := TotalNpus(d, seen);
    var i :| 0 <= i < |seen| && seen[i] == n;
    TooFew(|d.allowed|, npus, minCpus);
  }

  lemma TooFew(cpus: nat, npus: nat, each: nat)
    requires npus > 0 && cpus / npus >= each && each > 0 && cpus < 2 * each
    ensures npus == 1
  {
    var q := cpus / npus;
    assert cpus == q * npus + cpus % npus;
    if npus != 1 { RowMajorOrder(0, q - 1, npus - 1, 0, q); }
  }

  lemma BlindOverlap(d: Device, minCpus: nat)
    requires |d.logic| == 0 && |d.affinity| == 0 && |d.allowed| >= 2 * minCpus && minCpus >= 1
    ensures Gets(d, [0], minCpus, 0) && Gets(d, [0, 1], minCpus, 1)
    ensures !Disjoint(SliceIn(d, [0], minCpus, 0), SliceIn(d, [0, 1], minCpus, 1))
  {
    var n := |d.allowed|;
    assert TotalNpus(d, [0]) == 1 && TotalNpus(d, [0, 1]) == 2;
    assert n / 1 == n && n % 1 == 0 && n / 2 >= minCpus;
    SlicesTile(n, 2, 1);
    var k := SliceStart(n, 2, 1);
    assert SliceStart(n, 1, 0) == 0 && SliceLength(n, 1, 0) == n && k < n;
    var whole, half := SliceIn(d, [0], minCpus, 0), SliceIn(d, [0, 1], minCpus, 1);
    assert whole[k] == d.allowed[k] == half[0];
    assert half[0] in whole && half[0] in half;
  }

  // ----- clusters of the Ascend 950

  /** The allowed CPUs close to an NPU. */
  function Nearby(d: Device, npu: int): seq<int> {
    if npu in d.affinity then Filter(IsAllowed(d), d.affinity[npu]) else []
  }

  function IsAllowed(d: Device): int -> bool { c => c in d.allowed }

  function Node(d: Device, cpu: int): int { if cpu in d.nodeOf then d.nodeOf[cpu] else -1 }

  /** The node of a list of CPUs, -1 if it is empty or spans several. */
  function SingleNode(d: Device, cpus: seq<int>): int {
    if cpus == [] then -1
    else if forall i :: 0 <= i < |cpus| ==> Node(d, cpus[i]) == Node(d, cpus[0]) then Node(d, cpus[0]) else -1
  }

  function NpuNode(d: Device, npu: int): int { SingleNode(d, Nearby(d, npu)) }

  function CandidateTest(d: Device, running: seq<int>): int -> bool {
    n => n in running || Nearby(d, n) != []
  }

  /** All NPUs that may compete for this process's CPUs. */
  function Candidates(d: Device, running: seq<int>): seq<int> { Filter(CandidateTest(d, running), d.logic) }

  function OnNode(d: Device, node: int): int -> bool { n => NpuNode(d, n) == node }

  function NpusOn(d: Device, running: seq<int>, node: int): seq<int> { Filter(OnNode(d, node), Candidates(d, running)) }

  function Usable(d: Device, uvb: set<int>, node: int): int -> bool { c => Node(d, c) == node && c !in uvb }

  /** The CPUs of a node that may be used, in order. */
  function NodeCpus(d: Device, uvb: set<int>, node: int): seq<int> { Filter(Usable(d, uvb, node), d.allowed) }

  /** Whether the plan is made at all. */
  ghost predicate Succeeds(d: Device, uvb: set<int>, size: nat, running: seq<int>)
    requires size > 0
  {
    && |d.affinity| > 0
    && (forall n :: n in Candidates(d, running) ==> NpuNode(d, n) >= 0)
    && (forall n :: n in Candidates(d, running) ==> Enough(d, uvb, size, running, NpuNode(d, n)))
    && forall n :: n in running ==> n in d.logic
  }

  function IndexOf(s: seq<int>, x: int): (i: nat)
    requires x in s
    ensures i < |s| && s[i] == x
  {
    if s[0] == x then 0 else 1 + IndexOf(s[1..], x)
  }

  /** Part k of the list, if it is full. */
  function Part(s: seq<int>, size: nat, k: nat): (r: seq<int>)
    ensures r == [] || |r| == size
  {
    if k * size + size <= |s| then s[k * size..k * size + size] else []
  }

  /** The cluster of an NPU: as many clusters into its node's CPUs as there are NPUs of that node before it. */
  function ClusterOf(d: Device, uvb: set<int>, size: nat, running: seq<int>, npu: int): (c: seq<int>)
    requires size > 0 && npu in NpusOn(d, running, NpuNode(d, npu))
  {
    Part(NodeCpus(d, uvb, NpuNode(d, npu)), size, IndexOf(NpusOn(d, running, NpuNode(d, npu)), npu))
  }

  /** NPU n has its cluster. */
  ghost predicate Gives(d: Device, uvb: set<int>, size: nat, running: seq<int>, pool: map<int, seq<int>>, n: int)
    requires size > 0
  {
    n in pool && n in NpusOn(d, running, NpuNode(d, n)) && pool[n] == ClusterOf(d, uvb, size, running, n)
  }

  lemma GivesSame(d: Device, uvb: set<int>, size: nat, running: seq<int>, a: map<int, seq<int>>, b: map<int, seq<int>>,
                  n: int)
    requires size > 0 && Gives(d, uvb, size, running, a, n) && n in b && b[n] == a[n]
    ensures Gives(d, uvb, size, running, b, n)
  {
  }

  /** The NPUs of each node, in order. */
  ghost predicate Grouped(d: Device, npus: seq<int>, nodes: seq<int>, groups: map<int, seq<int>>) {
    && groups.Keys == (set g | g in nodes)
    && (forall g :: g in nodes ==> exists n :: n in npus && NpuNode(d, n) == g)
    && (forall n :: n in npus ==> NpuNode(d, n) in groups)
    && forall g :: g in groups ==> groups[g] == Filter(OnNode(d, g), npus)
  }

  lemma GroupedMore(d: Device, npus: seq<int>, k: nat, nodes: seq<int>, groups: map<int, seq<int>>)
    requires k < |npus| && Grouped(d, npus[..k], nodes, groups)
    ensures var node := NpuNode(d, npus[k]);
            if node in groups then Grouped(d, npus[..k + 1], nodes, groups[node := groups[node] + [npus[k]]])
            else Grouped(d, npus[..k + 1], nodes + [node], groups[node := [npus[k]]])
  {
    hide NpuNode, Filter;
    var node := NpuNode(d, npus[k]);
    var front, all := npus[..k], npus[..k + 1];
    assert all == front + [npus[k]];
    forall g ensures Filter(OnNode(d, g), all) == Filter(OnNode(d, g), front) + if g == node then [npus[k]] else [] {
      FilterStep(OnNode(d, g), npus, k);
    }
    FilterMember(OnNode(d, node), front);
    var filtered := Filter(OnNode(d, node), front);
    assert filtered != [] ==> filtered[0] in filtered;
    assert npus[k] in all;
  }

  /** Built, or given up with a warning, or stopped by an error. */
  datatype Outcome = Built | Skipped | Raised

  /** A CPU near the NPU that the node map does not know. */
  predicate Unmapped(d: Device, npu: int) { exists i :: 0 <= i < |Nearby(d, npu)| && Nearby(d, npu)[i] !in d.nodeOf }

  ghost predicate SettledBefore(d: Device, npus: seq<int>, k: int) {
    0 <= k <= |npus| && forall i :: 0 <= i < k ==> NpuNode(d, npus[i]) >= 0
  }

  /** The first NPU without a single node has a CPU that the node map does not know. */
  ghost predicate RaisesAt(d: Device, npus: seq<int>, k: int) {
    SettledBefore(d, npus, k) && k < |npus| && Unmapped(d, npus[k])
  }

  /** The first NPU without a single node has none nearby, or several. */
  ghost predicate SkipsAt(d: Device, npus: seq<int>, k: int) {
    SettledBefore(d, npus, k) && k < |npus| && !Unmapped(d, npus[k]) && NpuNode(d, npus[k]) < 0
  }

  lemma UnmappedHasNoNode(d: Device, npu: int)
    requires Unmapped(d, npu)
    ensures NpuNode(d, npu) < 0
  {
    var cpus := Nearby(d, npu);
    var i :| 0 <= i < |cpus| && cpus[i] !in d.nodeOf;
    assert Node(d, cpus[i]) == -1;
  }

  method GroupByNode(d: Device, npus: seq<int>) returns (r: Outcome, nodes: seq<int>, groups: map<int, seq<int>>)
    ensures r.Built? <==> forall n :: n in npus ==> NpuNode(d, n) >= 0
    ensures r.Raised? <==> exists k :: RaisesAt(d, npus, k)
    ensures r.Skipped? <==> exists k :: SkipsAt(d, npus, k)
    ensures r.Built? ==> Grouped(d, npus, nodes, groups)
  {
    hide NpuNode, Grouped, Unmapped;
    r, nodes, groups := Built, [], map[];
    assert Grouped(d, npus[..0], nodes, groups) by { NoGroups(d); }
    for k := 0 to |npus|
      invariant SettledBefore(d, npus, k)
      invariant Grouped(d, npus[..k], nodes, groups)
    {
      if Unmapped(d, npus[k]) {
        UnmappedHasNoNode(d, npus[k]);
        assert RaisesAt(d, npus, k);
        return Raised, nodes, groups;
      }
      var node := NpuNode(d, npus[k]);
      if node < 0 {
        FirstBad(d, npus, k);
        assert SkipsAt(d, npus, k);
        return Skipped, nodes, groups;
      }
      GroupedMore(d, npus, k, nodes, groups);
      if node in groups {
        groups := groups[node := groups[node] + [npus[k]]];
      } else {
        nodes, groups := nodes + [node], groups[node := [npus[k]]];
      }
    }
    assert npus[..|npus|] == npus;
    forall k ensures !RaisesAt(d, npus, k) {
      if RaisesAt(d, npus, k) { UnmappedHasNoNode(d, npus[k]); }
    }
  }

  lemma FirstBad(d: Device, npus: seq<int>, k: nat)
    requires SettledBefore(d, npus, k) && k < |npus| && !Unmapped(d, npus[k]) && NpuNode(d, npus[k]) < 0
    ensures forall m :: !RaisesAt(d, npus, m)
  {
    hide NpuNode, Unmapped;
    forall m ensures !RaisesAt(d, npus, m) {
      if RaisesAt(d, npus, m) { UnmappedHasNoNode(d, npus[m]); }
    }
  }

  lemma NoGroups(d: Device)
    ensures Grouped(d, [], [], map[])
  {
  }

  /** As many clusters of a node as it has NPUs. */
  ghost predicate Enough(d: Device, uvb: set<int>, size: nat, running: seq<int>, node: int)
    requires size > 0
  {
    |NpusOn(d, running, node)| <= |NodeCpus(d, uvb, node)| / size
  }

  method AssignClusters(d: Device, uvb: set<int>, size: nat, running: seq<int>, nodes: seq<int>, groups: map<int,
                        seq<int>>)
    returns (ok: bool, clusters: map<int, seq<int>>)
    requires size > 0 && Increasing(d.logic) && Grouped(d, Candidates(d, running), nodes, groups)
    ensures ok <==> forall n :: n in Candidates(d, running) ==> Enough(d, uvb, size, running, NpuNode(d, n))
    ensures ok ==> forall n :: n in clusters <==> n in Candidates(d, running)
    ensures ok ==> forall n :: n in clusters ==> Gives(d, uvb, size, running, clusters, n)
  {
    hide NpuNode, Candidates, Gives, NodeCpus, Filter, Increasing;
    ok, clusters := true, map[];
    for m := 0 to |nodes|
      invariant forall i :: 0 <= i < m ==> Enough(d, uvb, size, running, nodes[i])
      invariant forall n :: n in clusters <==> n in Candidates(d, running) && NpuNode(d, n) in nodes[..m]
      invariant forall n :: n in clusters ==> Gives(d, uvb, size, running, clusters, n)
    {
      var node := nodes[m];
      assert nodes[..m + 1] == nodes[..m] + [node];
      var cpus, npus := NodeCpus(d, uvb, node), groups[node];
      if |cpus| / size < |npus| {
        var n :| n in Candidates(d, running) && NpuNode(d, n) == node;
        assert !Enough(d, uvb, size, running, NpuNode(d, n));
        return false, clusters;
      }
      clusters := FillNode(d, uvb, size, running, node, npus, cpus, clusters);
      OnNodeMembers(d, running, node);
    }
    forall n | n in Candidates(d, running) ensures Enough(d, uvb, size, running, NpuNode(d, n))
        && NpuNode(d, n) in nodes[..|nodes|] {
      assert NpuNode(d, n) in nodes;
    }
  }

  lemma OnNodeMembers(d: Device, running: seq<int>, node: int)
    ensures forall n :: n in NpusOn(d, running, node) <==> n in Candidates(d, running) && NpuNode(d, n) == node
  {
    FilterMember(OnNode(d, node), Candidates(d, running));
  }

  /** The NPUs of one node take its clusters in order. */
  method FillNode(d: Device, uvb: set<int>, size: nat, running: seq<int>, node: int, npus: seq<int>, cpus: seq<int>,
                  before: map<int, seq<int>>)
    returns (clusters: map<int, seq<int>>)
    requires size > 0 && Increasing(d.logic) && npus == NpusOn(d, running, node) && cpus == NodeCpus(d, uvb, node)
    requires |npus| <= |cpus| / size && forall n :: n in before ==> Gives(d, uvb, size, running, before, n)
    ensures clusters.Keys == before.Keys + set n | n in npus
    ensures forall n :: n in clusters ==> Gives(d, uvb, size, running, clusters, n)
  {
    hide NpuNode, Candidates, Gives, NodeCpus, NpusOn, Filter, Increasing;
    clusters := before;
    for k := 0 to |npus|
      invariant clusters.Keys == before.Keys + set n | n in npus[..k]
      invariant forall n :: n in clusters ==> Gives(d, uvb, size, running, clusters, n)
    {
      assert npus[..k + 1] == npus[..k] + [npus[k]];
      Fits(k, |npus|, |cpus|, size);
      var next := clusters[npus[k] := cpus[k * size..k * size + size]];
      ClusterAt(d, uvb, size, running, node, k, next);
      forall n | n in next && n != npus[k] ensures Gives(d, uvb, size, running, next, n) {
        GivesSame(d, uvb, size, running, clusters, next, n);
      }
      clusters := next;
    }
    assert npus[..|npus|] == npus;
  }

  lemma ClusterAt(d: Device, uvb: set<int>, size: nat, running: seq<int>, node: int, k: nat, pool: map<int, seq<int>>)
    requires size > 0 && Increasing(d.logic) && k < |NpusOn(d, running, node)|
             && k * size + size <= |NodeCpus(d, uvb, node)|
    requires var n := NpusOn(d, running, node)[k];
               n in pool && pool[n] == NodeCpus(d, uvb, node)[k * size..k * size + size]
    ensures Gives(d, uvb, size, running, pool, NpusOn(d, running, node)[k])
  {
    hide NpuNode, NodeCpus, Candidates;
    var npus := NpusOn(d, running, node);
    OnNodeMembers(d, running, node);
    assert npus[k] in npus && NpuNode(d, npus[k]) == node;
    NpusIncreasing(d, running, node);
    var i := IndexOf(npus, npus[k]);
    assert i == k;
  }

  lemma NpusIncreasing(d: Device, running: seq<int>, node: int)
    requires Increasing(d.logic)
    ensures Increasing(NpusOn(d, running, node))
  {
    FilterIncreasing(CandidateTest(d, running), d.logic);
    FilterIncreasing(OnNode(d, node), Candidates(d, running));
  }

  lemma NoAffinity(d: Device, uvb: set<int>, size: nat, running: seq<int>)
    requires size > 0 && |d.affinity| == 0
    ensures !Succeeds(d, uvb, size, running)
  {
  }

  lemma NoNode(d: Device, uvb: set<int>, size: nat, running: seq<int>)
    requires size > 0 && exists n :: n in Candidates(d, running) && NpuNode(d, n) < 0
    ensures !Succeeds(d, uvb, size, running)
  {
  }

  /** A plan that succeeds does not depend on what the process sees. */
  lemma CandidatesAgree(d: Device, uvb: set<int>, size: nat, runningA: seq<int>, runningB: seq<int>)
    requires size > 0 && Succeeds(d, uvb, size, runningA) && Succeeds(d, uvb, size, runningB)
    ensures Candidates(d, runningA) == Candidates(d, runningB)
  {
    FilterMember(CandidateTest(d, runningA), d.logic);
    FilterMember(CandidateTest(d, runningB), d.logic);
    forall n | n in d.logic ensures CandidateTest(d, runningA)(n) <==> CandidateTest(d, runningB)(n) {
      if n in runningA { assert n in Candidates(d, runningA) && NpuNode(d, n) >= 0; }
      if n in runningB { assert n in Candidates(d, runningB) && NpuNode(d, n) >= 0; }
    }
    FilterAgree(CandidateTest(d, runningA), CandidateTest(d, runningB), d.logic);
  }

  lemma {:induction false} FilterIncreasing(f: int -> bool, s: seq<int>)
    requires Increasing(s)
    ensures Increasing(Filter(f, s))
  {
    if s != [] {
      FilterIncreasing(f, s[..|s| - 1]);
      FilterMember(f, s[..|s| - 1]);
      var front := Filter(f, s[..|s| - 1]);
      forall i | 0 <= i < |front| ensures front[i] < s[|s| - 1] { assert front[i] in s[..|s| - 1]; }
    }
  }

  lemma NotEnough(d: Device, uvb: set<int>, size: nat, running: seq<int>)
    requires size > 0 && exists n :: n in Candidates(d, running) && !Enough(d, uvb, size, running, NpuNode(d, n))
    ensures !Succeeds(d, uvb, size, running)
  {
  }

  lemma NotLogic(d: Device, uvb: set<int>, size: nat, running: seq<int>, n: int)
    requires size > 0 && n in running && n !in Candidates(d, running)
    ensures !Succeeds(d, uvb, size, running)
  {
    FilterMember(CandidateTest(d, running), d.logic);
  }

  lemma SucceedsIf(d: Device, uvb: set<int>, size: nat, running: seq<int>)
    requires size > 0 && |d.affinity| > 0 && forall n :: n in Candidates(d, running) ==> NpuNode(d, n) >= 0
    requires forall n :: n in Candidates(d, running) ==> Enough(d, uvb, size, running, NpuNode(d, n))
    requires forall n :: n in running ==> n in Candidates(d, running)
    ensures Succeeds(d, uvb, size, running)
  {
    FilterMember(CandidateTest(d, running), d.logic);
  }

  /** Every visible NPU of a plan that succeeds is among the competitors of its node. */
  lemma PlannedOnNode(d: Device, uvb: set<int>, size: nat, running: seq<int>, npu: int)
    requires size > 0 && Succeeds(d, uvb, size, running) && npu in running
    ensures npu in Candidates(d, running) && npu in NpusOn(d, running, NpuNode(d, npu))
  {
    FilterMember(CandidateTest(d, running), d.logic);
    FilterMember(OnNode(d, NpuNode(d, npu)), Candidates(d, running));
  }

  /** A cluster is full, lies in one node, among the allowed CPUs and off the uvb CPUs. */
  lemma ClusterSound(d: Device, uvb: set<int>, size: nat, running: seq<int>, npu: int)
    requires size > 0 && Succeeds(d, uvb, size, running) && npu in running
    ensures npu in NpusOn(d, running, NpuNode(d, npu))
    ensures var c := ClusterOf(d, uvb, size, running, npu);
            && |c| == size
            && forall x :: x in c ==> x in d.allowed && x !in uvb && Node(d, x) == NpuNode(d, npu)
  {
    hide Filter, NpuNode, NodeCpus, Candidates, NpusOn, Node, IndexOf;
    PlannedOnNode(d, uvb, size, running, npu);
    var node := NpuNode(d, npu);
    NodeCpusSound(d, uvb, node);
    Fits(IndexOf(NpusOn(d, running, node), npu), |NpusOn(d, running, node)|, |NodeCpus(d, uvb, node)|, size);
  }

  lemma NodeCpusSound(d: Device, uvb: set<int>, node: int)
    ensures forall x :: x in NodeCpus(d, uvb, node) ==> x in d.allowed && x !in uvb && Node(d, x) == node
    ensures Increasing(d.allowed) ==> Increasing(NodeCpus(d, uvb, node))
  {
    FilterMember(Usable(d, uvb, node), d.allowed);
    if Increasing(d.allowed) { FilterIncreasing(Usable(d, uvb, node), d.allowed); }
  }

  lemma Fits(k: nat, n: nat, length: nat, size: nat)
    requires size > 0 && k < n <= length / size
    ensures k * size + size <= length
  {
    var q := length / size;
    assert q * size <= length;
    RowMajorOrder(k, size - 1, q, 0, size);
  }

  /** Whatever two processes see, if both plans succeed then different NPUs get disjoint clusters,
      and an NPU both see gets the same one. */
  lemma ClustersAgree(d: Device, uvb: set<int>, size: nat, runningA: seq<int>, runningB: seq<int>, a: int, b: int)
    requires size > 0 && Increasing(d.allowed) && Increasing(d.logic)
    requires Succeeds(d, uvb, size, runningA) && Succeeds(d, uvb, size, runningB) && a in runningA && b in runningB
    ensures a in NpusOn(d, runningA, NpuNode(d, a)) && b in NpusOn(d, runningB, NpuNode(d, b))
    ensures a == b ==> ClusterOf(d, uvb, size, runningA, a) == ClusterOf(d, uvb, size, runningB, b)
    ensures a != b ==> Disjoint(ClusterOf(d, uvb, size, runningA, a), ClusterOf(d, uvb, size, runningB, b))
  {
    hide Filter, NpuNode, NodeCpus, Candidates, Node, IndexOf, Succeeds, ClusterOf, Increasing;
    CandidatesAgree(d, uvb, size, runningA, runningB);
    ClusterSound(d, uvb, size, runningA, a);
    ClusterSound(d, uvb, size, runningB, b);
    assert NpusOn(d, runningA, NpuNode(d, a)) == NpusOn(d, runningB, NpuNode(d, a));
    SameListSameCluster(d, uvb, size, runningA, runningB, a);
    if a != b && NpuNode(d, a) == NpuNode(d, b) { SameNodeDisjoint(d, uvb, size, runningA, runningB, a, b); }
  }

  lemma SameListSameCluster(d: Device, uvb: set<int>, size: nat, runningA: seq<int>, runningB: seq<int>, n: int)
    requires size > 0 && n in NpusOn(d, runningA, NpuNode(d, n))
    requires NpusOn(d, runningA, NpuNode(d, n)) == NpusOn(d, runningB, NpuNode(d, n))
    ensures ClusterOf(d, uvb, size, runningA, n) == ClusterOf(d, uvb, size, runningB, n)
  {
    hide NpusOn, NodeCpus, NpuNode, IndexOf;
  }

  lemma SameNodeDisjoint(d: Device, uvb: set<int>, size: nat, runningA: seq<int>, runningB: seq<int>, a: int, b: int)
    requires size > 0 && Increasing(d.allowed) && a != b && NpuNode(d, a) == NpuNode(d, b)
    requires a in NpusOn(d, runningA, NpuNode(d, a)) && b in NpusOn(d, runningB, NpuNode(d, b))
    requires NpusOn(d, runningA, NpuNode(d, a)) == NpusOn(d, runningB, NpuNode(d, a))
    ensures Disjoint(ClusterOf(d, uvb, size, runningA, a), ClusterOf(d, uvb, size, runningB, b))
  {
    hide NpusOn, NodeCpus, NpuNode, IndexOf, Increasing;
    var node := NpuNode(d, a);
    var npus, cpus := NpusOn(d, runningA, node), NodeCpus(d, uvb, node);
    NodeCpusSound(d, uvb, node);
    var i, j := IndexOf(npus, a), IndexOf(npus, b);
    if i * size + size <= |cpus| && j * size + size <= |cpus| { ClustersApart(cpus, size, i, j); }
  }

  lemma ClustersApart(cpus: seq<int>, size: nat, i: nat, j: nat)
    requires size > 0 && Increasing(cpus) && i != j && i * size + size <= |cpus| && j * size + size <= |cpus|
    ensures Disjoint(cpus[i * size..i * size + size], cpus[j * size..j * size + size])
  {
    if i < j { RowMajorOrder(i, size - 1, j, 0, size); } else { RowMajorOrder(j, size - 1, i, 0, size); }
  }

  // ----- the same in terms of single NPUs and CPUs

  /** CPU c is allowed and close to NPU n. */
  predicate Near(d: Device, n: int, c: int) { n in d.affinity && c in d.affinity[n] && c in d.allowed }

  /** NPU n wants a cluster: it runs here, or it has allowed CPUs and may run elsewhere. */
  ghost predicate Competes(d: Device, running: seq<int>, n: int) {
    n in d.logic && (n in running || exists c :: Near(d, n, c))
  }

  /** The allowed CPUs close to NPU n are all on node g, and there are some. */
  ghost predicate SitsOn(d: Device, n: int, g: nat) {
    (exists c :: Near(d, n, c)) && forall c :: Near(d, n, c) ==> c in d.nodeOf && d.nodeOf[c] == g
  }

  /** CPU c of node g is allowed and not kept for the uvb threads. */
  predicate FreeOn(d: Device, uvb: set<int>, g: int, c: int) {
    c in d.allowed && c in d.nodeOf && d.nodeOf[c] == g && c !in uvb
  }

  ghost function CompetitorsOn(d: Device, running: seq<int>, g: nat): set<int> {
    set n | n in d.logic && Competes(d, running, n) && SitsOn(d, n, g)
  }

  ghost function FreeCpus(d: Device, uvb: set<int>, g: int): set<int> { set c | c in d.allowed && FreeOn(d, uvb, g, c) }

  ghost function Below(s: set<int>, x: int): set<int> { set y | y in s && y < x }

  lemma NearbyIs(d: Device, n: int, c: int)
    ensures c in Nearby(d, n) <==> Near(d, n, c)
  {
    if n in d.affinity { FilterMember(IsAllowed(d), d.affinity[n]); }
  }

  lemma FirstIn(s: seq<int>)
    ensures s == [] || s[0] in s
  {
  }

  lemma NodeIs(d: Device, n: int, g: nat)
    ensures NpuNode(d, n) == g <==> SitsOn(d, n, g)
  {
    var cpus := Nearby(d, n);
    forall c ensures c in cpus <==> Near(d, n, c) { NearbyIs(d, n, c); }
    hide Nearby, Near;
    FirstIn(cpus);
    if SitsOn(d, n, g) {
      forall i | 0 <= i < |cpus| ensures Node(d, cpus[i]) == g { assert cpus[i] in cpus; }
    }
  }

  lemma UnmappedIs(d: Device, n: int)
    ensures Unmapped(d, n) <==> exists c :: Near(d, n, c) && c !in d.nodeOf
  {
    var cpus := Nearby(d, n);
    forall c ensures c in cpus <==> Near(d, n, c) { NearbyIs(d, n, c); }
    hide Nearby, Near;
    if Unmapped(d, n) {
      var i :| 0 <= i < |cpus| && cpus[i] !in d.nodeOf;
      assert cpus[i] in cpus;
      assert Near(d, n, cpus[i]);
    }
    if c :| Near(d, n, c) && c !in d.nodeOf {
      assert c in cpus;
      var i :| 0 <= i < |cpus| && cpus[i] == c;
    }
  }

  lemma CompetesIs(d: Device, running: seq<int>, n: int)
    ensures n in Candidates(d, running) <==> Competes(d, running, n)
  {
    FilterMember(CandidateTest(d, running), d.logic);
    var cpus := Nearby(d, n);
    forall c ensures c in cpus <==> Near(d, n, c) { NearbyIs(d, n, c); }
    FirstIn(cpus);
    hide Nearby, Near, Filter;
    assert CandidateTest(d, running)(n) <==> n in running || cpus != [];
    if cpus != [] { assert Near(d, n, cpus[0]); }
  }

  lemma IncreasingNoDup(s: seq<int>)
    requires Increasing(s)
    ensures NoDup(s) && |set x | x in s| == |s|
  {
    NoDupCardinality(s);
  }

  lemma OnNodeIs(d: Device, running: seq<int>, g: nat)
    requires Increasing(d.logic)
    ensures (set n | n in NpusOn(d, running, g)) == CompetitorsOn(d, running, g)
    ensures |NpusOn(d, running, g)| == |CompetitorsOn(d, running, g)|
  {
    OnNodeMembers(d, running, g);
    NpusIncreasing(d, running, g);
    hide NpusOn, Candidates, NpuNode;
    forall n ensures n in NpusOn(d, running, g) <==> n in CompetitorsOn(d, running, g) {
      CompetesIs(d, running, n);
      NodeIs(d, n, g);
    }
    IncreasingNoDup(NpusOn(d, running, g));
  }

  lemma FreeIs(d: Device, uvb: set<int>, g: nat)
    requires Increasing(d.allowed)
    ensures (set c | c in NodeCpus(d, uvb, g)) == FreeCpus(d, uvb, g)
    ensures |NodeCpus(d, uvb, g)| == |FreeCpus(d, uvb, g)| && Increasing(NodeCpus(d, uvb, g))
  {
    FilterMember(Usable(d, uvb, g), d.allowed);
    NodeCpusSound(d, uvb, g);
    assert forall c :: c in NodeCpus(d, uvb, g) <==> c in FreeCpus(d, uvb, g);
    hide NodeCpus;
    IncreasingNoDup(NodeCpus(d, uvb, g));
  }

  lemma EnoughIs(d: Device, uvb: set<int>, size: nat, running: seq<int>, g: nat)
    requires size > 0 && Increasing(d.allowed) && Increasing(d.logic)
    ensures Enough(d, uvb, size, running, g)
            <==> RoomOn(d, uvb, size, running, g)
  {
    OnNodeIs(d, running, g);
    FreeIs(d, uvb, g);
    hide NpusOn, NodeCpus, FreeCpus, CompetitorsOn;
    EnoughForAll(|NodeCpus(d, uvb, g)|, size, |NpusOn(d, running, g)|);
  }

  lemma InLogic(d: Device, running: seq<int>)
    ensures forall n :: n in Candidates(d, running) ==> n in d.logic
  {
    FilterMember(CandidateTest(d, running), d.logic);
  }

  lemma SitsSomewhere(d: Device, n: int)
    ensures NpuNode(d, n) >= 0 <==> exists g :: SitsOn(d, n, g)
  {
    hide NpuNode, SitsOn;
    if NpuNode(d, n) >= 0 { NodeIs(d, n, NpuNode(d, n)); }
    if g :| SitsOn(d, n, g) { NodeIs(d, n, g); }
  }

  lemma AllSit(d: Device, running: seq<int>)
    ensures (forall n :: n in Candidates(d, running) ==> NpuNode(d, n) >= 0)
            <==> forall n :: Competes(d, running, n) ==> exists g :: SitsOn(d, n, g)
  {
    hide Candidates, NpuNode, SitsOn, Competes;
    forall n
      ensures n in Candidates(d, running) <==> Competes(d, running, n)
      ensures NpuNode(d, n) >= 0 <==> exists g :: SitsOn(d, n, g)
    {
      CompetesIs(d, running, n);
      SitsSomewhere(d, n);
    }
  }

  lemma CompetitorIs(d: Device, running: seq<int>, g: nat, n: int)
    ensures n in CompetitorsOn(d, running, g) <==> n in Candidates(d, running) && NpuNode(d, n) == g
  {
    CompetesIs(d, running, n);
    NodeIs(d, n, g);
    InLogic(d, running);
    hide Candidates, NpuNode, SitsOn, Competes;
  }

  /** Node g has CPUs enough for the clusters of its competitors. */
  ghost predicate RoomOn(d: Device, uvb: set<int>, size: nat, running: seq<int>, g: nat) {
    |FreeCpus(d, uvb, g)| >= size * |CompetitorsOn(d, running, g)|
  }

  lemma RoomFor(d: Device, uvb: set<int>, size: nat, running: seq<int>, n: int, g: nat)
    requires size > 0 && Increasing(d.allowed) && Increasing(d.logic) && n in CompetitorsOn(d, running, g)
    ensures n in Candidates(d, running) && NpuNode(d, n) == g
    ensures Enough(d, uvb, size, running, NpuNode(d, n)) <==> RoomOn(d, uvb, size, running, g)
  {
    hide Candidates, NpuNode, CompetitorsOn, RoomOn, Enough, Increasing;
    CompetitorIs(d, running, g, n);
    EnoughIs(d, uvb, size, running, g);
  }

  lemma AllRoom(d: Device, uvb: set<int>, size: nat, running: seq<int>)
    requires size > 0 && Increasing(d.allowed) && Increasing(d.logic)
    requires forall n :: n in Candidates(d, running) ==> NpuNode(d, n) >= 0
    ensures (forall n :: n in Candidates(d, running) ==> Enough(d, uvb, size, running, NpuNode(d, n)))
            <==> forall g: nat, n :: n in CompetitorsOn(d, running, g) ==> RoomOn(d, uvb, size, running, g)
  {
    hide Candidates, NpuNode, CompetitorsOn, RoomOn, Enough, Increasing;
    if forall n :: n in Candidates(d, running) ==> Enough(d, uvb, size, running, NpuNode(d, n)) {
      forall g: nat, n | n in CompetitorsOn(d, running, g) ensures RoomOn(d, uvb, size, running, g) {
        RoomFor(d, uvb, size, running, n, g);
      }
    } else {
      var n :| n in Candidates(d, running) && !Enough(d, uvb, size, running, NpuNode(d, n));
      CompetitorIs(d, running, NpuNode(d, n), n);
      RoomFor(d, uvb, size, running, n, NpuNode(d, n));
    }
  }

  /** A plan is made exactly if there is a topology, all visible NPUs are known, every competing NPU
      sits on one node, and no node has fewer CPUs than its competitors' clusters need. */
  lemma SucceedsExactly(d: Device, uvb: set<int>, size: nat, running: seq<int>)
    requires size > 0 && Increasing(d.allowed) && Increasing(d.logic)
    ensures Succeeds(d, uvb, size, running) <==>
              && |d.affinity| > 0 && (forall n :: n in running ==> n in d.logic)
              && (forall n :: Competes(d, running, n) ==> exists g :: SitsOn(d, n, g))
              && forall g: nat, n :: n in CompetitorsOn(d, running, g) ==> RoomOn(d, uvb, size, running, g)
  {
    hide Candidates, NpuNode, SitsOn, CompetitorsOn, RoomOn, Enough, Competes, Increasing;
    AllSit(d, running);
    if forall n :: n in Candidates(d, running) ==> NpuNode(d, n) >= 0 { AllRoom(d, uvb, size, running); }
  }

  /** In an increasing list an element has as many before it as there are smaller ones. */
  lemma RankIs(s: seq<int>, all: set<int>, i: nat)
    requires Increasing(s) && i < |s| && all == set x | x in s
    ensures |Below(all, s[i])| == i
  {
    assert Below(all, s[i]) == set x | x in s[..i];
    IncreasingNoDup(s[..i]);
  }

  /** A full part k of an increasing list holds the elements with k * size to k * size + size - 1
      smaller ones. */
  lemma PartByRank(s: seq<int>, all: set<int>, size: nat, k: nat, x: int)
    requires Increasing(s) && all == (set y | y in s) && |Part(s, size, k)| == size > 0
    ensures x in Part(s, size, k) <==> x in all && k * size <= |Below(all, x)| < k * size + size
  {
    hide Increasing, Below;
    if x in s {
      var i :| 0 <= i < |s| && s[i] == x;
      RankIs(s, all, i);
      InPart(s, k * size, k * size + size, i);
    }
  }

  /** CPU x goes to NPU n exactly if it is free on n's node and, counted among the free CPUs there, it
      is in the cluster whose number is the number of competitors before n. */
  lemma ClusterExactly(d: Device, uvb: set<int>, size: nat, running: seq<int>, n: int, g: nat, x: int)
    requires size > 0 && Increasing(d.allowed) && Increasing(d.logic) && Succeeds(d, uvb, size, running)
    requires n in running && SitsOn(d, n, g)
    ensures n in NpusOn(d, running, NpuNode(d, n))
    ensures var first := |Below(CompetitorsOn(d, running, g), n)| * size;
            x in ClusterOf(d, uvb, size, running, n)
            <==> x in FreeCpus(d, uvb, g) && first <= |Below(FreeCpus(d, uvb, g), x)| < first + size
  {
    NodeIs(d, n, g);
    ClusterSound(d, uvb, size, running, n);
    OnNodeIs(d, running, g);
    FreeIs(d, uvb, g);
    NpusIncreasing(d, running, g);
    var npus, cpus := NpusOn(d, running, g), NodeCpus(d, uvb, g);
    var k := IndexOf(npus, n);
    hide NpusOn, NodeCpus, NpuNode, IndexOf, FreeCpus, CompetitorsOn, Below, Succeeds, SitsOn, Increasing, Node;
    RankIs(npus, CompetitorsOn(d, running, g), k);
    ClusterPart(d, uvb, size, running, n, g, k);
    PartByRank(cpus, FreeCpus(d, uvb, g), size, k, x);
  }

  lemma ClusterPart(d: Device, uvb: set<int>, size: nat, running: seq<int>, n: int, g: nat, k: nat)
    requires size > 0 && NpuNode(d, n) == g && n in NpusOn(d, running, g) && k == IndexOf(NpusOn(d, running, g), n)
    ensures ClusterOf(d, uvb, size, running, n) == Part(NodeCpus(d, uvb, g), size, k)
  {
    hide NpusOn, NodeCpus, NpuNode, IndexOf, Part;
  }

  lemma InPart(s: seq<int>, from: nat, to: nat, i: nat)
    requires Increasing(s) && i < |s| && from <= to <= |s|
    ensures s[i] in s[from..to] <==> from <= i < to
  {
    if from <= i < to { assert s[from..to][i - from] == s[i]; }
  }

  // ----- which pools have room for the roles

  /** A pool has the CPUs kept for interrupts, one for each of two threads and some left over exactly
      if it has the minimum. */
  lemma SplittableExactly(pool: seq<int>, reserveIrq: bool)
    ensures |pool| >= MinCpus(reserveIrq) <==>
              exists irq, main, acl, rel ::
                && |irq| == (if reserveIrq then 2 else 0) && main != [] && |acl| == |rel| == 1
                && pool == irq + main + acl + rel
  {
    if |pool| >= MinCpus(reserveIrq) {
      var k, n := if reserveIrq then 2 else 0, |pool| - 2;
      assert pool == pool[..k] + pool[k..n] + [pool[n]] + [pool[n + 1]];
    }
  }
}
