/** The batch planner: assign physical rows, then run every logical row, on one thread or striding
    over several. */
module Planner {
  import opened Lists
  import opened Resident
  import opened RowAssignment
  import opened RowStep
  import opened Batch
  import opened RowProgram
  import opened Schedule

  // ----- any schedule

  /** Threads striding over the logical rows, with every turn of every loop interleaved in any way,
      leave the same rows and plans as running the rows one after the other. */
  lemma AnyScheduleGivesBatch(picks: seq<nat>, states: seq<State<Scratch, Cell>>, rows: seq<Row>, reqs: seq<Request>,
                              maxToken: nat, resident: nat, topk: nat, threads: nat, i: nat)
    requires threads > 0 && i < |reqs| <= |rows| && resident < INT16_MAX && Sized(reqs, topk)
    requires IsRun(BatchProgram(reqs, maxToken, resident, threads), picks, states)
    requires Initial(BatchProgram(reqs, maxToken, resident, threads), states[0], ReadyFor(maxToken),
                     HoldsRows(resident, topk))
    requires Finished(BatchProgram(reqs, maxToken, resident, threads), states[|picks|])
    requires |states[0].cells| == |reqs|
    requires forall j :: 0 <= j < |reqs| ==> states[0].cells[j].row == rows[Physical(rows, reqs)[j]]
    ensures var p := Physical(rows, reqs)[i];
            && |states[|picks|].cells| == |reqs|
            && states[|picks|].cells[i] == Cell(NextRows(rows, reqs, maxToken)[p],
                                                PlanOf(rows[p], StepOf(reqs[i], maxToken)))
  {
    hide RowAfter, PlanOf, StepOf, Physical, Atomic, IsRun, Initial, Finished, Strides, Meets, NextRows;
    var prog := BatchProgram(reqs, maxToken, resident, threads);
    StridesPartition(threads, |reqs|);
    assert Listed(threads, |reqs|, i);
    assert !Unlisted(prog.work, i);
    ProgramMeets(reqs, maxToken, resident, topk, threads);
    InterleavingIrrelevant(prog, picks, states, ReadyFor(maxToken), HoldsRows(resident, topk),
                           RowResult(reqs, maxToken), i);
    ServingIs(Physical(rows, reqs), i);
    NextRowsAt(rows, reqs, maxToken, Physical(rows, reqs)[i]);
  }

  // ----- the batch in memory

  /** Which part of memory an object belongs to: a physical row, a plan or a thread's scratch memory. */
  type Regions = map<object, int>

  ghost predicate In(regions: Regions, objects: set<object>, region: int) {
    forall o :: o in objects ==> o in regions && regions[o] == region
  }

  /** Everything has its size, and no two parts of memory overlap. */
  ghost predicate Shape(regions: Regions, owners: array<int>, rows: seq<PhysicalRow>, wss: seq<Workspace>,
                        outs: seq<PlanRow>,
                        capacity: int, topk: int) {
    && 1 <= capacity <= INT16_MAX && |rows| == owners.Length <= INT16_MAX && 0 <= topk && In(regions, {owners}, -1)
    && (forall p :: 0 <= p < |rows| ==>
          rows[p].Valid(capacity) && rows[p].tokens.Length == capacity && In(regions, rows[p].Repr(), 3 * p))
    && (forall i :: 0 <= i < |outs| ==> outs[i].Valid(topk) && In(regions, outs[i].Repr(), 3 * i + 1))
    && forall t :: 0 <= t < |wss| ==>
         wss[t].slots.Length == 3 * capacity && wss[t].missPositions.Length == topk
             && In(regions, wss[t].Repr(), 3 * t + 2)
  }

  lemma RegionsApart(regions: Regions, a: set<object>, i: int, b: set<object>, j: int)
    requires In(regions, a, i) && In(regions, b, j) && i != j
    ensures a !! b
  {
  }

  /** The physical rows hold these values. */
  ghost predicate RowsAre(owners: array<int>, rows: seq<PhysicalRow>, views: seq<Row>)
    reads *
  {
    && |views| == |rows| == owners.Length
    && forall p :: 0 <= p < |rows| ==>
         1 <= rows[p].tokens.Length == rows[p].order.Length && rows[p].View(owners[p]) == views[p]
  }

  ghost predicate ScratchValid(wss: seq<Workspace>, maxToken: int)
    reads *
  {
    forall t :: 0 <= t < |wss| ==> wss[t].Valid(maxToken)
  }

  /** The cells after the plan tell the operator which physical row it is for and how it is laid out. */
  ghost predicate ControlIs(out: PlanRow, p: int, capacity: int)
    reads out.encoded
  {
    && out.slots.Length + 7 <= out.encoded.Length
    && out.encoded[out.slots.Length + 4..out.slots.Length + 7] == [p, LAYOUT_MARKER, capacity]
  }

  lemma ControlRead(codes: seq<int>, tail: seq<int>, topk: nat, p: int, capacity: int)
    requires |tail| >= 7 && topk <= |codes| && codes[topk..] == Control(tail, p, capacity)
    requires 0 <= p < INT16_MAX && 0 <= capacity <= INT16_MAX
    ensures topk + 7 <= |codes| && codes[topk + 4..topk + 7] == [p, LAYOUT_MARKER, capacity]
  {
    assert |codes[topk..]| == |tail|;
    assert codes[topk + 4..topk + 7] == codes[topk..][4..7];
  }

  /** Logical row i, on physical row p, with the scratch memory of thread t. */
  method RunRow(ghost regions: Regions, owners: array<int>, rows: seq<PhysicalRow>, wss: seq<Workspace>,
                outs: seq<PlanRow>,
                capacity: int, topk: int, req: Request, maxToken: int, i: int, p: int, t: int, ghost views: seq<Row>)
    requires Shape(regions, owners, rows, wss, outs, capacity, topk) && |req.topk| == topk && maxToken >= 0
             && capacity >= 2
    requires 0 <= i < |outs| && 0 <= p < |rows| && 0 <= t < |wss|
    requires RowsAre(owners, rows, views) && ScratchValid(wss, maxToken)
    modifies owners, rows[p].Repr(), wss[t].Repr(), outs[i].Repr()
    ensures RowsAre(owners, rows, views[p := RowAfter(views[p], StepOf(req, maxToken))]) && ScratchValid(wss, maxToken)
    ensures outs[i].slots.Length <= outs[i].encoded.Length && outs[i].View(p * capacity)
            == PlanOf(views[p], StepOf(req, maxToken))
    ensures ControlIs(outs[i], p, capacity)
  {
    hide Shape, NextRow, PlanFor, QueryOf, Control, In;
    ghost var before := owners[..];
    ShapeAt(regions, owners, rows, wss, outs, capacity, topk, p, t, i);
    ghost var tail := outs[i].encoded[topk..];
    ProcessRow(owners, p, rows[p], req, maxToken, wss[t], outs[i]);
    ControlRead(outs[i].encoded[..], tail, topk, p, capacity);
    forall r | 0 <= r < |rows| && r != p ensures rows[r].View(owners[r]) == views[r] {
      RowElsewhere(regions, owners, rows, wss, outs, capacity, topk, p, t, i, r);
      assert owners[r] == owners[..][r] == before[r];
    }
    forall u | 0 <= u < |wss| && u != t ensures wss[u].Valid(maxToken) {
      ScratchElsewhere(regions, owners, rows, wss, outs, capacity, topk, p, t, i, u);
    }
    assert owners[p] == owners[..][p];
  }

  lemma SomeSlot(regions: Regions, owners: array<int>, rows: seq<PhysicalRow>, wss: seq<Workspace>, outs: seq<PlanRow>,
                 capacity: int, topk: int)
    requires Shape(regions, owners, rows, wss, outs, capacity, topk)
    ensures capacity >= 1
  {
  }

  /** What the layout says about the memory of one row step. */
  lemma ShapeAt(regions: Regions, owners: array<int>, rows: seq<PhysicalRow>, wss: seq<Workspace>, outs: seq<PlanRow>,
                capacity: int, topk: int, p: int, t: int, i: int)
    requires Shape(regions, owners, rows, wss, outs, capacity, topk)
    requires 0 <= i < |outs| && 0 <= p < |rows| && 0 <= t < |wss|
    ensures 1 <= capacity <= INT16_MAX && |rows| == owners.Length <= INT16_MAX
    ensures rows[p].Valid(capacity) && rows[p].tokens.Length == capacity && outs[i].Valid(topk)
    ensures wss[t].slots.Length == 3 * capacity && wss[t].missPositions.Length == topk
    ensures Apart(rows[p], wss[t], outs[i]) && owners !in rows[p].Repr() + wss[t].Repr() + outs[i].Repr()
  {
    hide In;
    RegionsApart(regions, rows[p].Repr(), 3 * p, wss[t].Repr(), 3 * t + 2);
    RegionsApart(regions, rows[p].Repr(), 3 * p, outs[i].Repr(), 3 * i + 1);
    RegionsApart(regions, wss[t].Repr(), 3 * t + 2, outs[i].Repr(), 3 * i + 1);
    RegionsApart(regions, {owners}, -1, rows[p].Repr(), 3 * p);
    RegionsApart(regions, {owners}, -1, wss[t].Repr(), 3 * t + 2);
    RegionsApart(regions, {owners}, -1, outs[i].Repr(), 3 * i + 1);
  }

  lemma RowElsewhere(regions: Regions, owners: array<int>, rows: seq<PhysicalRow>, wss: seq<Workspace>,
                     outs: seq<PlanRow>,
                     capacity: int, topk: int, p: int, t: int, i: int, r: int)
    requires Shape(regions, owners, rows, wss, outs, capacity, topk)
    requires 0 <= i < |outs| && 0 <= p < |rows| && 0 <= t < |wss| && 0 <= r < |rows| && r != p
    ensures rows[r].Repr() !! {owners} + rows[p].Repr() + wss[t].Repr() + outs[i].Repr()
  {
    hide In;
    RegionsApart(regions, rows[r].Repr(), 3 * r, rows[p].Repr(), 3 * p);
    RegionsApart(regions, rows[r].Repr(), 3 * r, wss[t].Repr(), 3 * t + 2);
    RegionsApart(regions, rows[r].Repr(), 3 * r, outs[i].Repr(), 3 * i + 1);
    RegionsApart(regions, rows[r].Repr(), 3 * r, {owners}, -1);
  }

  lemma ScratchElsewhere(regions: Regions, owners: array<int>, rows: seq<PhysicalRow>, wss: seq<Workspace>,
                         outs: seq<PlanRow>, capacity: int, topk: int, p: int, t: int, i: int, u: int)
    requires Shape(regions, owners, rows, wss, outs, capacity, topk)
    requires 0 <= i < |outs| && 0 <= p < |rows| && 0 <= t < |wss| && 0 <= u < |wss| && u != t
    ensures wss[u].Repr() !! {owners} + rows[p].Repr() + wss[t].Repr() + outs[i].Repr()
  {
    hide In;
    RegionsApart(regions, wss[u].Repr(), 3 * u + 2, rows[p].Repr(), 3 * p);
    RegionsApart(regions, wss[u].Repr(), 3 * u + 2, wss[t].Repr(), 3 * t + 2);
    RegionsApart(regions, wss[u].Repr(), 3 * u + 2, outs[i].Repr(), 3 * i + 1);
    RegionsApart(regions, wss[u].Repr(), 3 * u + 2, {owners}, -1);
  }

  // ----- a batch in progress

  /** The rows when exactly the logical rows in `done` have run. */
  function Mixed(views: seq<Row>, reqs: seq<Request>, maxToken: int, done: set<int>): (rows: seq<Row>)
    requires |reqs| <= |views|
    ensures |rows| == |views|
  {
    var phys := Physical(views, reqs);
    seq(|views|, p requires 0 <= p < |views| =>
      var i := Serving(phys, p);
      if i >= 0 && i in done then RowAfter(views[p], StepOf(reqs[i], maxToken)) else views[p])
  }

  lemma MixedStep(views: seq<Row>, reqs: seq<Request>, maxToken: int, done: set<int>, i: nat)
    requires i < |reqs| <= |views| && i !in done
    ensures var p := Physical(views, reqs)[i];
            && Mixed(views, reqs, maxToken, done)[p] == views[p]
            && Mixed(views, reqs, maxToken, done + {i})
               == Mixed(views, reqs, maxToken, done)[p := RowAfter(views[p], StepOf(reqs[i], maxToken))]
  {
    hide RowAfter, StepOf, Physical;
    ServingIs(Physical(views, reqs), i);
  }

  lemma MixedEnds(views: seq<Row>, reqs: seq<Request>, maxToken: int, done: set<int>)
    requires |reqs| <= |views| && forall i :: 0 <= i < |reqs| ==> i in done
    ensures Mixed(views, reqs, maxToken, {}) == views
    ensures Mixed(views, reqs, maxToken, done) == NextRows(views, reqs, maxToken)
  {
    hide RowAfter, StepOf, Physical;
  }

  /** The plan of logical row i is written. */
  ghost predicate PlanIs(outs: seq<PlanRow>, views: seq<Row>, reqs: seq<Request>, maxToken: int, capacity: int, i: int)
    requires |reqs| <= |views|
    reads *
  {
    && 0 <= i < |reqs| && i < |outs| && outs[i].slots.Length <= outs[i].encoded.Length
    && var p := Physical(views, reqs)[i];
       && outs[i].View(p * capacity) == PlanOf(views[p], StepOf(reqs[i], maxToken)) && ControlIs(outs[i], p, capacity)
       && outs[i].currentToken == CurrentToken(views, reqs, maxToken, capacity, i)
  }

  ghost predicate InProgress(owners: array<int>, rows: seq<PhysicalRow>, wss: seq<Workspace>, outs: seq<PlanRow>,
                             views: seq<Row>, reqs: seq<Request>, maxToken: int, capacity: int, done: set<int>)
    requires |reqs| <= |views|
    reads *
  {
    && RowsAre(owners, rows, Mixed(views, reqs, maxToken, done)) && ScratchValid(wss, maxToken)
    && forall i :: i in done ==> PlanIs(outs, views, reqs, maxToken, capacity, i)
  }

  ghost predicate Sized(reqs: seq<Request>, topk: int) {
    forall i :: 0 <= i < |reqs| ==> |reqs[i].topk| == topk
  }

  /** One more logical row, on any thread. */
  method Advance(ghost regions: Regions, owners: array<int>, rows: seq<PhysicalRow>, wss: seq<Workspace>,
                 outs: seq<PlanRow>,
                 capacity: int, topk: int, reqs: seq<Request>, maxToken: int, i: int, p: int, t: int,
                 ghost views: seq<Row>, ghost done: set<int>)
    requires Shape(regions, owners, rows, wss, outs, capacity, topk) && Sized(reqs, topk) && maxToken >= 0
             && capacity >= 2
    requires 0 <= i < |reqs| == |outs| <= |rows| == |views| && 0 <= t < |wss| && i !in done
    requires p == Physical(views, reqs)[i]
    requires InProgress(owners, rows, wss, outs, views, reqs, maxToken, capacity, done)
    modifies owners, rows[p].Repr(), wss[t].Repr(), outs[i].Repr()
    ensures InProgress(owners, rows, wss, outs, views, reqs, maxToken, capacity, done + {i})
  {
    hide Mixed, Physical, RowAfter, PlanOf, StepOf, In, RowsAre, ScratchValid;
    MixedStep(views, reqs, maxToken, done, i);
    RunRow(regions, owners, rows, wss, outs, capacity, topk, reqs[i], maxToken, i, p, t,
           Mixed(views, reqs, maxToken, done));
    forall j | j in done ensures PlanIs(outs, views, reqs, maxToken, capacity, j) {
      RegionsApart(regions, outs[j].Repr(), 3 * j + 1, rows[p].Repr(), 3 * p);
      RegionsApart(regions, outs[j].Repr(), 3 * j + 1, wss[t].Repr(), 3 * t + 2);
      RegionsApart(regions, outs[j].Repr(), 3 * j + 1, outs[i].Repr(), 3 * i + 1);
      RegionsApart(regions, outs[j].Repr(), 3 * j + 1, {owners}, -1);
    }
  }

  // ----- the whole batch

  ghost function RowMemory(rows: seq<PhysicalRow>): set<object> { set r, o | r in rows && o in r.Repr() :: o }

  ghost function PlanMemory(outs: seq<PlanRow>): set<object> { set r, o | r in outs && o in r.Repr() :: o }

  ghost function ScratchMemory(wss: seq<Workspace>): set<object> { set w, o | w in wss && o in w.Repr() :: o }

  ghost function BatchMemory(owners: array<int>, rows: seq<PhysicalRow>, wss: seq<Workspace>,
                             outs: seq<PlanRow>): set<object> {
    {owners} + RowMemory(rows) + PlanMemory(outs) + ScratchMemory(wss)
  }

  lemma MemoryOf(owners: array<int>, rows: seq<PhysicalRow>, wss: seq<Workspace>, outs: seq<PlanRow>, p: int, t: int,
                 i: int)
    requires 0 <= p < |rows| && 0 <= t < |wss| && 0 <= i < |outs|
    ensures {owners} + rows[p].Repr() + wss[t].Repr() + outs[i].Repr() <= BatchMemory(owners, rows, wss, outs)
  {
  }

  lemma OutsideBatch(regions: Regions, owners: array<int>, rows: seq<PhysicalRow>, wss: seq<Workspace>,
                     outs: seq<PlanRow>,
                     capacity: int, topk: int, a: object)
    requires Shape(regions, owners, rows, wss, outs, capacity, topk) && In(regions, {a}, -2)
    ensures a !in BatchMemory(owners, rows, wss, outs)
  {
    assert a in {a};
  }

  lemma StrideGap(a: nat, b: nat, threads: nat)
    requires threads > 0 && a < b
    ensures a * threads + threads <= b * threads
  {
    RowMajorOrder(a, threads - 1, b, 0, threads);
  }

  /** Rows of one thread are `threads` apart. */
  lemma SameThread(j: nat, row: nat, threads: nat)
    requires threads > 0 && j % threads == row % threads
    ensures j < row + threads <==> j < row || j == row
  {
    var a, b := j / threads, row / threads;
    assert j == j % threads + a * threads;
    assert row == row % threads + b * threads;
    if a < b { StrideGap(a, b, threads); }
    if b < a { StrideGap(b, a, threads); }
  }

  lemma NextMultiple(row: nat, threads: nat)
    requires threads > 0
    ensures (row + threads) % threads == row % threads
  {
    var q, m := row / threads, row % threads;
    var q', m' := (row + threads) / threads, (row + threads) % threads;
    assert (q + 1) * threads + m == q' * threads + m' by { assert (q + 1) * threads == q * threads + threads; }
    StrideUnique(m, m', q + 1, q', threads);
  }

  method RunSequential(ghost regions: Regions, owners: array<int>, rows: seq<PhysicalRow>, wss: seq<Workspace>,
                       outs: seq<PlanRow>, rowOf: array<int>, capacity: int, topk: int, reqs: seq<Request>,
                       maxToken: int,
                       ghost views: seq<Row>)
    returns (ghost done: set<int>)
    requires Shape(regions, owners, rows, wss, outs, capacity, topk) && Sized(reqs, topk) && maxToken >= 0
             && capacity >= 2
    requires |reqs| == |outs| <= |rows| == |views| && 1 <= |wss| && |reqs| <= rowOf.Length && In(regions, {rowOf}, -2)
    requires rowOf[..|reqs|] == Physical(views, reqs)
    requires InProgress(owners, rows, wss, outs, views, reqs, maxToken, capacity, {})
    modifies BatchMemory(owners, rows, wss, outs)
    ensures (forall i :: 0 <= i < |reqs| ==> i in done)
    ensures InProgress(owners, rows, wss, outs, views, reqs, maxToken, capacity, done)
  {
    hide *;
    OutsideBatch(regions, owners, rows, wss, outs, capacity, topk, rowOf);
    done := {};
    for i := 0 to |reqs|
      invariant rowOf[..|reqs|] == Physical(views, reqs)
      invariant forall j :: 0 <= j < |reqs| ==> (j in done <==> j < i)
      invariant InProgress(owners, rows, wss, outs, views, reqs, maxToken, capacity, done)
    {
      assert rowOf[i] == rowOf[..|reqs|][i];
      MemoryOf(owners, rows, wss, outs, rowOf[i], 0, i);
      Advance(regions, owners, rows, wss, outs, capacity, topk, reqs, maxToken, i, rowOf[i], 0, views, done);
      done := done + {i};
    }
  }

  ghost function RowSet(n: nat): set<int> { set i | i in Iota(n) }

  lemma InRowSet(i: int, n: nat)
    requires 0 <= i < n
    ensures i in RowSet(n)
  {
    assert Iota(n)[i] == i;
  }

  /** `next[t]` is the row thread t runs next; the rows before it on its stride are done. */
  ghost predicate Striding(next: seq<int>, threads: int, n: nat, done: set<int>) {
    && 1 <= threads == |next| && done <= RowSet(n)
    && (forall t :: 0 <= t < threads ==> 0 <= next[t] && next[t] % threads == t)
    && forall j :: 0 <= j < n ==> (j in done <==> j < next[j % threads])
  }

  lemma StridesOn(next: seq<int>, threads: int, n: nat, done: set<int>, t: nat)
    requires Striding(next, threads, n, done) && t < threads && next[t] < n
    ensures next[t] !in done && Striding(next[t := next[t] + threads], threads, n, done + {next[t]})
  {
    var row := next[t];
    var after := next[t := row + threads];
    NextMultiple(row, threads);
    InRowSet(row, n);
    hide RowSet;
    forall j | 0 <= j < n ensures j in done + {row} <==> j < after[j % threads] {
      if j % threads == t { SameThread(j, row, threads); }
    }
  }

  lemma StridesStart(threads: nat, n: nat)
    requires threads >= 1
    ensures Striding(seq(threads, t => t), threads, n, {})
  {
    forall t | 0 <= t < threads ensures t % threads == t { SmallResidue(t, threads); }
    forall j | 0 <= j < n ensures j >= j % threads { SmallResidue(j % threads, threads); }
  }

  lemma SmallResidue(t: nat, threads: nat)
    requires t < threads
    ensures t % threads == t
  {
  }

  /** The threads' loops, interleaved: in every turn any thread that has rows left runs its next one,
      with its own scratch memory.  Nothing is said about which, so this is every interleaving of whole
      rows. */
  method RunStrided(ghost regions: Regions, owners: array<int>, rows: seq<PhysicalRow>, wss: seq<Workspace>,
                    outs: seq<PlanRow>, rowOf: array<int>, capacity: int, topk: int, reqs: seq<Request>, maxToken: int,
                    threads: int, ghost views: seq<Row>)
    returns (ghost done: set<int>)
    requires Shape(regions, owners, rows, wss, outs, capacity, topk) && Sized(reqs, topk) && maxToken >= 0
             && capacity >= 2
    requires |reqs| == |outs| <= |rows| == |views| && 1 <= threads <= |wss| && |reqs| <= rowOf.Length
             && In(regions, {rowOf}, -2)
    requires rowOf[..|reqs|] == Physical(views, reqs)
    requires InProgress(owners, rows, wss, outs, views, reqs, maxToken, capacity, {})
    modifies BatchMemory(owners, rows, wss, outs)
    ensures (forall i :: 0 <= i < |reqs| ==> i in done)
    ensures InProgress(owners, rows, wss, outs, views, reqs, maxToken, capacity, done)
  {
    hide *;
    OutsideBatch(regions, owners, rows, wss, outs, capacity, topk, rowOf);
    done := {};
    var n, next := |reqs|, seq(threads, t => t);
    StridesStart(threads, n);
    while exists t :: 0 <= t < threads && next[t] < n
      invariant |next| == threads && Striding(next, threads, n, done)
      invariant rowOf[..n] == Physical(views, reqs)
      invariant InProgress(owners, rows, wss, outs, views, reqs, maxToken, capacity, done)
      decreases RowSet(n) - done
    {
      var t :| 0 <= t < threads && next[t] < n;
      var row := next[t];
      StridesOn(next, threads, n, done, t);
      ThreadRow(next, threads, n, done, t);
      assert rowOf[row] == rowOf[..n][row];
      MemoryOf(owners, rows, wss, outs, rowOf[row], t, row);
      Advance(regions, owners, rows, wss, outs, capacity, topk, reqs, maxToken, row, rowOf[row], t, views, done);
      next, done := next[t := row + threads], done + {row};
    }
    StridesEnd(next, threads, n, done);
  }

  lemma ThreadRow(next: seq<int>, threads: int, n: nat, done: set<int>, t: nat)
    requires Striding(next, threads, n, done) && t < threads && next[t] < n
    ensures 0 <= next[t] && next[t] in RowSet(n)
  {
    InRowSet(next[t], n);
  }

  lemma StridesEnd(next: seq<int>, threads: int, n: nat, done: set<int>)
    requires Striding(next, threads, n, done) && forall t :: 0 <= t < threads ==> next[t] >= n
    ensures forall j :: 0 <= j < n ==> j in done
  {
  }

  /** The owners array is the owners of the rows. */
  lemma OwnersAre(owners: array<int>, rows: seq<PhysicalRow>, views: seq<Row>, reqs: seq<Request>)
    requires RowsAre(owners, rows, views) && |reqs| <= |rows|
    ensures |reqs| <= owners.Length == |views| && RowsFor(owners[..], Ids(reqs)) == Physical(views, reqs)
  {
    assert owners[..] == Owners(views);
    hide RowsFor;
  }

  lemma BatchStarts(owners: array<int>, rows: seq<PhysicalRow>, wss: seq<Workspace>, outs: seq<PlanRow>,
                    views: seq<Row>,
                    reqs: seq<Request>, maxToken: int, capacity: int)
    requires RowsAre(owners, rows, views) && ScratchValid(wss, maxToken) && |reqs| <= |views|
    ensures InProgress(owners, rows, wss, outs, views, reqs, maxToken, capacity, {})
  {
    hide NextRow;
    assert Mixed(views, reqs, maxToken, {}) == views;
  }

  lemma BatchEnds(owners: array<int>, rows: seq<PhysicalRow>, wss: seq<Workspace>, outs: seq<PlanRow>, views: seq<Row>,
                  reqs: seq<Request>, maxToken: int, capacity: int, done: set<int>)
    requires |reqs| <= |views| && InProgress(owners, rows, wss, outs, views, reqs, maxToken, capacity, done)
    requires forall i :: 0 <= i < |reqs| ==> i in done
    ensures RowsAre(owners, rows, NextRows(views, reqs, maxToken)) && ScratchValid(wss, maxToken)
    ensures forall i :: 0 <= i < |reqs| ==> PlanIs(outs, views, reqs, maxToken, capacity, i)
  {
    hide RowsAre, ScratchValid, Mixed, NextRows, PlanOf, StepOf, Physical;
    MixedEnds(views, reqs, maxToken, done);
  }

  /** Map the logical rows; the search always succeeds, and leaves rows and scratch memory alone. */
  method AssignPhysical(ghost regions: Regions, owners: array<int>, ghost rows: seq<PhysicalRow>,
                        ghost wss: seq<Workspace>,
                        ghost outs: seq<PlanRow>, ghost capacity: int, ghost topk: int, reqs: seq<Request>,
                        ghost maxToken: int,
                        rowOf: array<int>, used: array<int>, ghost views: seq<Row>)
    requires Shape(regions, owners, rows, wss, outs, capacity, topk)
    requires |reqs| <= |rows| == |views| && RowsAre(owners, rows, views) && ScratchValid(wss, maxToken)
    requires owners.Length == used.Length && |reqs| <= rowOf.Length && rowOf != used && owners != rowOf
             && owners != used
    requires In(regions, {rowOf}, -2) && In(regions, {used}, -2)
    modifies rowOf, used
    ensures RowsAre(owners, rows, views) && ScratchValid(wss, maxToken)
    ensures rowOf[..|reqs|] == Physical(views, reqs)
  {
    hide In, Physical, RowsFor, Settled;
    OwnersAre(owners, rows, views, reqs);
    var ok := AssignRows(owners, Ids(reqs), rowOf, used);
    forall p | 0 <= p < |rows| ensures rows[p].View(owners[p]) == views[p] {
      RegionsApart(regions, rows[p].Repr(), 3 * p, {rowOf}, -2);
      RegionsApart(regions, rows[p].Repr(), 3 * p, {used}, -2);
    }
    forall t | 0 <= t < |wss| ensures wss[t].Valid(maxToken) {
      RegionsApart(regions, wss[t].Repr(), 3 * t + 2, {rowOf}, -2);
      RegionsApart(regions, wss[t].Repr(), 3 * t + 2, {used}, -2);
    }
  }

  /** The batch planner: rows and plans of the batch, whatever the number of threads; nothing for an
      empty batch or rows without resident slots. */
  method Compact(ghost regions: Regions, owners: array<int>, rows: seq<PhysicalRow>, wss: seq<Workspace>,
                 outs: seq<PlanRow>,
                 rowOf: array<int>, used: array<int>, capacity: int, topk: int, reqs: seq<Request>, maxToken: int,
                 requestedThreads: int, ghost views: seq<Row>)
    requires Shape(regions, owners, rows, wss, outs, capacity, topk) && Sized(reqs, topk) && 1 <= |wss|
    requires |reqs| == |outs| <= |rows| == |views| && RowsAre(owners, rows, views) && ScratchValid(wss, maxToken)
    requires owners.Length == used.Length && |reqs| <= rowOf.Length && rowOf != used && owners != rowOf
             && owners != used
    requires In(regions, {rowOf}, -2) && In(regions, {used}, -2)
    modifies BatchMemory(owners, rows, wss, outs), rowOf, used
    ensures |reqs| == 0 || topk <= 0 || maxToken <= 0 || capacity == 1 ==> RowsAre(owners, rows, views)
    ensures |reqs| > 0 && topk > 0 && maxToken > 0 && capacity > 1 ==>
              && RowsAre(owners, rows, NextRows(views, reqs, maxToken)) && ScratchValid(wss, maxToken)
              && forall i :: 0 <= i < |reqs| ==> PlanIs(outs, views, reqs, maxToken, capacity, i)
  {
    hide *;
    if |reqs| == 0 || topk <= 0 || maxToken <= 0 {
      return;
    }
    AssignPhysical(regions, owners, rows, wss, outs, capacity, topk, reqs, maxToken, rowOf, used, views);
    SomeSlot(regions, owners, rows, wss, outs, capacity, topk);
    if capacity == 1 {
      return; // only the reserved slot: every row step returns at once
    }
    BatchStarts(owners, rows, wss, outs, views, reqs, maxToken, capacity);
    var threads := ChooseThreads(|reqs|, |wss|, requestedThreads);
    ghost var done;
    if threads == 1 {
      done := RunSequential(regions, owners, rows, wss, outs, rowOf, capacity, topk, reqs, maxToken, views);
    } else {
      done := RunStrided(regions, owners, rows, wss, outs, rowOf, capacity, topk, reqs, maxToken, threads, views);
    }
    BatchEnds(owners, rows, wss, outs, views, reqs, maxToken, capacity, done);
  }
}
