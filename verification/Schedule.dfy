/** Threads that share nothing but a partition of the work.

    Each thread runs a list of tasks one after the other.  A task is any number of atomic
    steps, each of which reads and writes the thread's own workspace and the task's own cell.
    However the steps of different threads interleave, the cells end up as if each task had
    been run alone on its initial cell. */
module Schedule {
  import opened Lists

  /** `step(i, k, w, c)` is the k-th atomic step of task i. */
  datatype Program<!W, !C> = Program(work: seq<seq<nat>>, length: nat -> nat, step: (nat, nat, W, C) -> (W, C))

  /** `start[t]` records the workspace with which thread t began its present task. */
  datatype State<W, C> = State(cells: seq<C>, workspaces: seq<W>, start: seq<W>, at: seq<nat>, pc: seq<nat>)

  /** The first k steps of task i. */
  function Iterate<W, C>(prog: Program<W, C>, i: nat, w: W, c: C, k: nat): (W, C) {
    if k == 0 then (w, c)
    else
      var (w', c') := Iterate(prog, i, w, c, k - 1);
      (prog.step)(i, k - 1, w', c')
  }

  /** Run alone from any valid workspace, on any cell that fits, task i turns c into result(i, c) and
      keeps the workspace valid. */
  ghost predicate Meets<W(!new), C(!new)>(prog: Program<W, C>, valid: W -> bool, fits: C -> bool,
                                          result: (nat, C) -> C) {
    forall i, w, c :: valid(w) && fits(c) ==>
      var (w', c') := Iterate(prog, i, w, c, prog.length(i));
      valid(w') && c' == result(i, c)
  }

  /** No task occurs twice, in one list or in two, and each has a cell. */
  ghost predicate Partition(work: seq<seq<nat>>, cells: nat) {
    && (forall t, m :: 0 <= t < |work| && 0 <= m < |work[t]| ==> work[t][m] < cells)
    && (forall t :: 0 <= t < |work| ==> NoDup(work[t]))
    && forall t, u, m, n :: 0 <= t < u < |work| && 0 <= m < |work[t]| && 0 <= n < |work[u]| ==> work[t][m] != work[u][n]
  }

  ghost predicate WellFormed<W, C>(prog: Program<W, C>, s: State<W, C>) {
    |s.workspaces| == |s.start| == |s.at| == |s.pc| == |prog.work|
  }

  predicate Enabled<W, C>(prog: Program<W, C>, s: State<W, C>, t: nat) {
    t < |prog.work| && t < |s.at| && s.at[t] < |prog.work[t]|
  }

  /** Thread t makes its next atomic step, or moves on to its next task. */
  ghost function Next<W, C>(prog: Program<W, C>, s: State<W, C>, t: nat): (s': State<W, C>)
    requires WellFormed(prog, s) && Enabled(prog, s, t) && prog.work[t][s.at[t]] < |s.cells|
    ensures WellFormed(prog, s') && |s'.cells| == |s.cells|
  {
    var i := prog.work[t][s.at[t]];
    if s.pc[t] < prog.length(i) then
      var (w, c) := (prog.step)(i, s.pc[t], s.workspaces[t], s.cells[i]);
      s.(cells := s.cells[i := c], workspaces := s.workspaces[t := w], pc := s.pc[t := s.pc[t] + 1])
    else
      s.(at := s.at[t := s.at[t] + 1], pc := s.pc[t := 0], start := s.start[t := s.workspaces[t]])
  }

  /** The states passed through when the scheduler picks threads `picks`. */
  ghost predicate IsRun<W, C>(prog: Program<W, C>, picks: seq<nat>, states: seq<State<W, C>>) {
    && |states| == |picks| + 1
    && forall k :: 0 <= k < |picks| ==>
         && WellFormed(prog, states[k]) && Enabled(prog, states[k], picks[k])
         && prog.work[picks[k]][states[k].at[picks[k]]] < |states[k].cells|
         && states[k + 1] == Next(prog, states[k], picks[k])
  }

  ghost predicate Initial<W, C>(prog: Program<W, C>, s: State<W, C>, valid: W -> bool, fits: C -> bool) {
    && WellFormed(prog, s) && s.start == s.workspaces && (forall i :: 0 <= i < |s.cells| ==> fits(s.cells[i]))
    && forall t :: 0 <= t < |prog.work| ==> s.at[t] == 0 && s.pc[t] == 0 && valid(s.workspaces[t])
  }

  ghost predicate Finished<W, C>(prog: Program<W, C>, s: State<W, C>) {
    WellFormed(prog, s) && forall t :: 0 <= t < |prog.work| ==> s.at[t] == |prog.work[t]|
  }

  // ----- the invariant of one thread

  ghost predicate ThreadOk<W, C>(prog: Program<W, C>, s: State<W, C>, cells: seq<C>, valid: W -> bool,
                                 result: (nat, C) -> C, t: nat)
    requires WellFormed(prog, s) && Partition(prog.work, |cells|) && |s.cells| == |cells| && t < |prog.work|
  {
    var tasks, at, pc := prog.work[t], s.at[t], s.pc[t];
    && at <= |tasks| && valid(s.start[t])
    && (forall m :: 0 <= m < at ==> s.cells[tasks[m]] == result(tasks[m], cells[tasks[m]]))
    && (forall m :: at < m < |tasks| ==> s.cells[tasks[m]] == cells[tasks[m]])
    && (at < |tasks| ==>
          && pc <= prog.length(tasks[at])
          && (s.workspaces[t], s.cells[tasks[at]]) == Iterate(prog, tasks[at], s.start[t], cells[tasks[at]], pc))
  }

  ghost predicate AllOk<W, C>(prog: Program<W, C>, s: State<W, C>, cells: seq<C>, valid: W -> bool,
                              result: (nat, C) -> C) {
    && WellFormed(prog, s) && Partition(prog.work, |cells|) && |s.cells| == |cells|
    && (forall t :: 0 <= t < |prog.work| ==> ThreadOk(prog, s, cells, valid, result, t))
    && forall i :: 0 <= i < |cells| && Unlisted(prog.work, i) ==> s.cells[i] == cells[i]
  }

  /** No thread has task i. */
  ghost predicate Unlisted(work: seq<seq<nat>>, i: nat) {
    forall t, m :: 0 <= t < |work| && 0 <= m < |work[t]| ==> work[t][m] != i
  }

  lemma MoverOk<W(!new), C(!new)>(prog: Program<W, C>, s: State<W, C>, cells: seq<C>, valid: W -> bool, fits: C -> bool,
                                  result: (nat, C) -> C, t: nat)
    requires Meets(prog, valid, fits, result) && (forall i :: 0 <= i < |cells| ==> fits(cells[i]))
             && AllOk(prog, s, cells, valid, result) && Enabled(prog, s, t)
    ensures ThreadOk(prog, Next(prog, s, t), cells, valid, result, t)
  {
    var tasks, at := prog.work[t], s.at[t];
    var i, s' := tasks[at], Next(prog, s, t);
    assert ThreadOk(prog, s, cells, valid, result, t);
    if s.pc[t] < prog.length(i) {
      assert forall m :: 0 <= m < |tasks| && m != at ==> s'.cells[tasks[m]] == s.cells[tasks[m]];
    } else {
      var (w, c) := Iterate(prog, i, s.start[t], cells[i], prog.length(i));
      assert fits(cells[i]) && valid(w) && c == result(i, cells[i]);
    }
  }

  lemma BystanderOk<W(!new), C(!new)>(prog: Program<W, C>, s: State<W, C>, cells: seq<C>, valid: W -> bool,
                                      result: (nat, C) -> C, t: nat, u: nat)
    requires AllOk(prog, s, cells, valid, result) && Enabled(prog, s, t) && u < |prog.work| && u != t
    ensures ThreadOk(prog, Next(prog, s, t), cells, valid, result, u)
  {
    var i, s' := prog.work[t][s.at[t]], Next(prog, s, t);
    assert ThreadOk(prog, s, cells, valid, result, u);
    forall m | 0 <= m < |prog.work[u]| ensures prog.work[u][m] != i && s'.cells[prog.work[u][m]]
        == s.cells[prog.work[u][m]] {
      if u < t {
        assert prog.work[u][m] != prog.work[t][s.at[t]];
      } else {
        assert prog.work[t][s.at[t]] != prog.work[u][m];
      }
    }
    assert s'.workspaces[u] == s.workspaces[u] && s'.start[u] == s.start[u] && s'.at[u] == s.at[u]
           && s'.pc[u] == s.pc[u];
  }

  /** Every state of every run, whatever the scheduler picks. */
  lemma {:induction false} RunOk<W(!new), C(!new)>(prog: Program<W, C>, picks: seq<nat>, states: seq<State<W, C>>,
                                                   valid: W -> bool, fits: C -> bool, result: (nat, C) -> C, k: nat)
    requires Meets(prog, valid, fits, result) && IsRun(prog, picks, states) && Initial(prog, states[0], valid, fits)
    requires Partition(prog.work, |states[0].cells|) && k < |states|
    ensures AllOk(prog, states[k], states[0].cells, valid, result)
  {
    var cells := states[0].cells;
    if k == 0 {
      forall t | 0 <= t < |prog.work| ensures ThreadOk(prog, states[0], cells, valid, result, t) {}
    } else {
      RunOk(prog, picks, states, valid, fits, result, k - 1);
      var s, t := states[k - 1], picks[k - 1];
      assert states[k] == Next(prog, s, t);
      forall u | 0 <= u < |prog.work| ensures ThreadOk(prog, states[k], cells, valid, result, u) {
        if u == t { MoverOk(prog, s, cells, valid, fits, result, t); }
            else { BystanderOk(prog, s, cells, valid, result, t, u); }
      }
    }
  }

  /** Once all threads are done, every listed cell holds the result of its task alone and every
      other cell is untouched: the interleaving left no trace. */
  lemma InterleavingIrrelevant<W(!new), C(!new)>(prog: Program<W, C>, picks: seq<nat>, states: seq<State<W, C>>,
                                                 valid: W -> bool, fits: C -> bool, result: (nat, C) -> C, i: nat)
    requires Meets(prog, valid, fits, result) && IsRun(prog, picks, states) && Initial(prog, states[0], valid, fits)
    requires Partition(prog.work, |states[0].cells|) && Finished(prog, states[|picks|]) && i < |states[0].cells|
    ensures |states[|picks|].cells| == |states[0].cells|
    ensures states[|picks|].cells[i] == if Unlisted(prog.work, i) then states[0].cells[i]
            else result(i, states[0].cells[i])
  {
    RunOk(prog, picks, states, valid, fits, result, |picks|);
    if t, m :| 0 <= t < |prog.work| && 0 <= m < |prog.work[t]| && prog.work[t][m] == i {
      assert ThreadOk(prog, states[|picks|], states[0].cells, valid, result, t);
    }
  }

  // ----- the strided lists

  /** The rows thread t visits: t, t + threads, t + 2 * threads, ... */
  function Stride(t: nat, threads: nat, n: nat): (rows: seq<nat>)
    requires threads > 0
    ensures forall m :: 0 <= m < |rows| ==> t <= rows[m] < n
    decreases n - t
  {
    if t >= n then [] else [t] + Stride(t + threads, threads, n)
  }

  lemma {:induction false} StrideAt(t: nat, threads: nat, n: nat, m: nat)
    requires threads > 0 && m < |Stride(t, threads, n)|
    ensures Stride(t, threads, n)[m] == t + m * threads
    decreases m
  {
    if m > 0 {
      StrideAt(t + threads, threads, n, m - 1);
      assert threads + (m - 1) * threads == m * threads;
    }
  }

  lemma {:induction false} StrideReaches(t: nat, threads: nat, n: nat, m: nat)
    requires threads > 0 && t + m * threads < n
    ensures m < |Stride(t, threads, n)|
    decreases m
  {
    if m > 0 {
      assert threads + (m - 1) * threads == m * threads;
      StrideReaches(t + threads, threads, n, m - 1);
    } else {
      assert m * threads == 0;
    }
  }

  function Strides(threads: nat, n: nat): (work: seq<seq<nat>>)
    requires threads > 0
    ensures |work| == threads
  {
    seq(threads, t requires 0 <= t < threads => Stride(t, threads, n))
  }

  /** t + m * threads determines t and m. */
  lemma StrideUnique(t: nat, u: nat, m: nat, n: nat, threads: nat)
    requires t < threads && u < threads && t + m * threads == u + n * threads
    ensures t == u && m == n
  {
    if m < n { RowMajorOrder(m, t, n, u, threads); }
    if n < m { RowMajorOrder(n, u, m, t, threads); }
  }

  /** Every row is on exactly one thread's list, exactly once. */
  lemma StridesPartition(threads: nat, n: nat)
    requires threads > 0
    ensures Partition(Strides(threads, n), n)
    ensures forall i :: 0 <= i < n ==> Listed(threads, n, i)
  {
    var work := Strides(threads, n);
    forall t, u, m, k | 0 <= t < threads && 0 <= u < threads && 0 <= m < |work[t]| && 0 <= k < |work[u]|
      ensures work[t][m] == work[u][k] ==> t == u && m == k
    {
      StrideAt(t, threads, n, m);
      StrideAt(u, threads, n, k);
      if work[t][m] == work[u][k] { StrideUnique(t, u, m, k, threads); }
    }
    forall i | 0 <= i < n ensures Listed(threads, n, i) {
      var t, m := i % threads, i / threads;
      assert i == t + m * threads;
      StrideReaches(t, threads, n, m);
      StrideAt(t, threads, n, m);
      assert work[t][m] == i;
    }
  }

  ghost predicate Listed(threads: nat, n: nat, i: nat)
    requires threads > 0
  {
    exists t, m :: 0 <= t < threads && 0 <= m < |Strides(threads, n)[t]| && Strides(threads, n)[t][m] == i
  }

  /** A batch may use n threads: no more than rows, workspaces or the number asked for, where given. */
  predicate MayUse(rows: int, workspaces: int, requested: int, n: int) {
    && 1 <= n <= Max(rows, 1) && (workspaces >= 1 ==> n <= workspaces) && (requested >= 1 ==> n <= requested)
  }

  /** How many threads a batch uses: as many as it may. */
  function ChooseThreads(rows: int, workspaces: int, requested: int): (threads: int)
    ensures 1 <= threads <= Max(rows, 1)
    ensures workspaces >= 1 ==> threads <= workspaces
    ensures requested >= 1 ==> threads <= requested
    ensures forall n :: MayUse(rows, workspaces, requested, n) ==> n <= threads
    ensures threads == 1 <==> rows <= 1 || workspaces == 1 || requested == 1
  {
    if rows <= 1 then 1
    else
      var a := if workspaces > 0 then Min(rows, workspaces) else rows;
      var b := if requested > 0 then Min(a, requested) else a;
      Max(b, 1)
  }
}
