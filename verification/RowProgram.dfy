/** The row step as a program of small steps, one for each turn of its loops.

    Each step reads and writes the scratch memory of its thread and the cell of its logical row: the
    physical row and the plan.  Run from start to end on any valid scratch memory the program turns
    the cell into the specified row and plan. */
module RowProgram {
  import opened Lists
  import opened Resident
  import opened ResidentRuns
  import opened RowStep
  import opened Batch
  import opened Schedule

  /** What one logical row may touch: its physical row and its plan. */
  datatype Cell = Cell(row: Row, plan: Plan)

  /** The scratch memory of a thread and the counters of its loops. */
  datatype Scratch = Scratch(mark: seq<int>, position: seq<int>, epoch: int, hits: seq<int>, evictable: seq<int>,
                             missed: seq<int>, current: int)

  // ----- the steps

  function Blank(n: nat): seq<int> { seq(n, _ => -1) }

  /** Clear one cell of the plan: slots, then miss tokens, miss slots and codes. */
  function ClearOne(n: nat, k: nat, p: Plan): Plan {
    if k < n then (if k < |p.slots| then p.(slots := p.slots[k := -1]) else p)
    else if k < 2 * n then (if k - n < |p.missTokens| then p.(missTokens := p.missTokens[k - n := -1]) else p)
    else if k < 3 * n then (if k - 2 * n < |p.missSlots| then p.(missSlots := p.missSlots[k - 2 * n := -1]) else p)
    else if k - 3 * n < |p.encoded| then p.(encoded := p.encoded[k - 3 * n := 0]) else p
  }

  /** Empty one slot, then put one slot back in order, if the row belongs to another request. */
  function ResetOne(resident: nat, id: int, k: nat, row: Row): Row {
    if row.owner == id then row
    else if k < resident then (if k < |row.tokens| then row.(tokens := row.tokens[k := -1]) else row)
    else if k - resident < |row.order| then row.(order := row.order[k - resident := k - resident]) else row
  }

  /** Clear one mark, then one position, if the epochs have run out. */
  function TableOne(k: nat, w: Scratch): Scratch {
    if w.epoch + 1 < EPOCH_RESET_THRESHOLD then w
    else if k < |w.mark| then w.(mark := w.mark[k := 0])
    else if k - |w.mark| < |w.position| then w.(position := w.position[k - |w.mark| := -1]) else w
  }

  /** Take the new epoch and set the counters. */
  function EpochStep(resident: nat, w: Scratch): Scratch {
    w.(epoch := if w.epoch + 1 < EPOCH_RESET_THRESHOLD then w.epoch + 1
       else 1, hits := [], evictable := [], missed := [],
       current := resident)
  }

  /** Mark the token at one position of the selection. */
  function StampOne(q: Query, p: nat, w: Scratch): Scratch {
    if p < |q.topk| && Shown(q, q.topk[p]) && q.topk[p] < |w.mark| == |w.position| && w.mark[q.topk[p]] != w.epoch
    then w.(mark := w.mark[q.topk[p] := w.epoch], position := w.position[q.topk[p] := p])
    else w
  }

  /** Look at one slot of the order. */
  function VisitOne(q: Query, k: nat, w: Scratch, c: Cell): (Scratch, Cell) {
    if k < |c.row.order| && 0 <= c.row.order[k] < |c.row.tokens| then
      var slot := c.row.order[k];
      var token := c.row.tokens[slot];
      var live := if IsToken(q, token) && token >= q.stable then -1 else token;
      var row := c.row.(tokens := c.row.tokens[slot := live]);
      if IsToken(q, live) && live < |w.mark| == |w.position| && w.mark[live] == w.epoch
         && 0 <= w.position[live] < |c.plan.slots| == |c.plan.encoded|
      then
        var p := w.position[live];
        (w.(hits := w.hits + [slot], current := if live == q.visible - 1 then slot else w.current),
         Cell(row, c.plan.(slots := c.plan.slots[p := slot], encoded := c.plan.encoded[p := ToInt16(slot + 1)])))
      else (w.(evictable := w.evictable + [slot]), Cell(row, c.plan))
    else (w, c)
  }

  /** List one position if it is visible and has no slot. */
  function CollectOne(q: Query, p: nat, w: Scratch, c: Cell): (Scratch, Cell) {
    if p < |q.topk| && p < |c.plan.slots| && Shown(q, q.topk[p]) && c.plan.slots[p] < 0
        && |w.missed| < |c.plan.missTokens|
    then (w.(missed := w.missed + [p]), c.(plan := c.plan.(missTokens := c.plan.missTokens[|w.missed| := q.topk[p]])))
    else (w, c)
  }

  /** Give one evictable slot to one miss, if both are left. */
  function AssignOne(q: Query, m: nat, w: Scratch, c: Cell): (Scratch, Cell) {
    if m < |w.missed| && m < |w.evictable| && m < |c.plan.missTokens| && m < |c.plan.missSlots|
       && 0 <= w.evictable[m] < |c.row.tokens| && 0 <= w.missed[m] < |c.plan.slots| == |c.plan.encoded|
    then
      var slot, token, p := w.evictable[m], c.plan.missTokens[m], w.missed[m];
      (w.(current := if token == q.visible - 1 then slot else w.current),
       Cell(c.row.(tokens := c.row.tokens[slot := token]),
            c.plan.(slots := c.plan.slots[p := slot], missSlots := c.plan.missSlots[m := slot], missCount := m + 1,
                    encoded := c.plan.encoded[p := ToInt16(if token == q.visible - 1 then slot + 1 else -(slot + 1))])))
    else (w, c)
  }

  /** The kept slots, then the refilled ones, then the hits. */
  function ListedSlots(w: Scratch): seq<int> {
    var filled := Min(|w.missed|, |w.evictable|);
    w.evictable[filled..] + w.evictable[..filled] + w.hits
  }

  /** Rewrite one cell of the order. */
  function WriteOne(k: nat, w: Scratch, c: Cell): Cell {
    if k < |ListedSlots(w)| && k < |c.row.order| then c.(row := c.row.(order := c.row.order[k := ListedSlots(w)[k]]))
        else c
  }

  /** Step k of logical row i, for rows with `resident` slots. */
  function Atomic(reqs: seq<Request>, maxToken: nat, resident: nat, i: nat, k: nat, w: Scratch, c: Cell): (Scratch,
      Cell) {
    if i >= |reqs| then (w, c)
    else
      var q, id, n := QueryOf(reqs[i], maxToken), reqs[i].id, |reqs[i].topk|;
      var claim := 4 * n + 1;
      var table := claim + 2 * resident + 1;
      var stamp := table + 2 * maxToken + 1;
      if k < 4 * n then (w, c.(plan := ClearOne(n, k, c.plan)))
      else if k == 4 * n then (w, c.(plan := c.plan.(missCount := 0)))
      else if k < claim + 2 * resident then (w, c.(row := ResetOne(resident, id, k - claim, c.row)))
      else if k == claim + 2 * resident then (w, c.(row := c.row.(owner := id)))
      else if k < table + 2 * maxToken then (TableOne(k - table, w), c)
      else if k == table + 2 * maxToken then (EpochStep(resident, w), c)
      else if k < stamp + n then (StampOne(q, k - stamp, w), c)
      else if k < stamp + n + resident then VisitOne(q, k - stamp - n, w, c)
      else if k < stamp + 2 * n + resident then CollectOne(q, k - stamp - n - resident, w, c)
      else if k < stamp + 3 * n + resident then AssignOne(q, k - stamp - 2 * n - resident, w, c)
      else if k < stamp + 3 * n + 2 * resident then (w, WriteOne(k - stamp - 3 * n - resident, w, c))
      else (w, c.(plan := c.plan.(currentSlot := w.current)))
  }

  /** Where the stamping of row i begins. */
  function StampAt(n: nat, maxToken: nat, resident: nat): nat { 4 * n + 2 * resident + 2 * maxToken + 3 }

  function Steps(reqs: seq<Request>, maxToken: nat, resident: nat, i: nat): nat {
    if i < |reqs| then StampAt(|reqs[i].topk|, maxToken, resident) + 3 * |reqs[i].topk| + 2 * resident + 1 else 0
  }

  /** The program of a batch on `threads` threads, each striding over the logical rows. */
  function BatchProgram(reqs: seq<Request>, maxToken: nat, resident: nat, threads: nat): Program<Scratch, Cell>
    requires threads > 0
  {
    Program(Strides(threads, |reqs|), (i: nat) => Steps(reqs, maxToken, resident, i),
            (i: nat, k: nat, w: Scratch, c: Cell) => Atomic(reqs, maxToken, resident, i, k, w, c))
  }

  // ----- what the scratch memory must be like

  /** Marks never exceed the epoch. */
  ghost predicate Ready(w: Scratch, maxToken: int) {
    && |w.mark| == |w.position| == maxToken && 0 <= w.epoch < EPOCH_RESET_THRESHOLD
    && forall t :: 0 <= t < |w.mark| ==> w.mark[t] <= w.epoch
  }

  ghost function ReadyFor(maxToken: int): Scratch -> bool { w => Ready(w, maxToken) }

  /** A row of `resident` slots and a plan of n positions, with any contents. */
  predicate Holds(resident: nat, n: nat, c: Cell) {
    && |c.row.tokens| == |c.row.order| == resident
    && |c.plan.slots| == |c.plan.missTokens| == |c.plan.missSlots| == |c.plan.encoded| == n
  }

  function HoldsRows(resident: nat, n: nat): Cell -> bool { c => Holds(resident, n, c) }

  // ----- clearing, claiming and taking an epoch

  /** s with its first k elements replaced by v. */
  function Filled(s: seq<int>, k: int, v: int): seq<int> {
    seq(|s|, i requires 0 <= i < |s| => if i < k then v else s[i])
  }

  function Numbered(s: seq<int>, k: int): seq<int> {
    seq(|s|, i requires 0 <= i < |s| => if i < k then i else s[i])
  }

  ghost predicate Clearing(n: nat, k: int, p0: Plan, p: Plan) {
    && p.slots == Filled(p0.slots, k, -1) && p.missTokens == Filled(p0.missTokens, k - n, -1)
    && p.missSlots == Filled(p0.missSlots, k - 2 * n, -1) && p.encoded == Filled(p0.encoded, k - 3 * n, 0)
  }

  lemma ClearNext(n: nat, k: nat, p0: Plan, p: Plan)
    requires |p0.slots| == |p0.missTokens| == |p0.missSlots| == |p0.encoded| == n
    requires k < 4 * n && Clearing(n, k, p0, p)
    ensures Clearing(n, k + 1, p0, ClearOne(n, k, p))
  {
  }

  ghost predicate Claiming(resident: nat, id: int, k: int, r0: Row, r: Row) {
    && r.owner == r0.owner
    && r.tokens == (if r0.owner == id then r0.tokens else Filled(r0.tokens, k, -1))
    && r.order == if r0.owner == id then r0.order else Numbered(r0.order, k - resident)
  }

  lemma ClaimNext(resident: nat, id: int, k: nat, r0: Row, r: Row)
    requires |r0.tokens| == |r0.order| == resident && k < 2 * resident && Claiming(resident, id, k, r0, r)
    ensures Claiming(resident, id, k + 1, r0, ResetOne(resident, id, k, r))
  {
  }

  lemma ClaimDone(resident: nat, id: int, r0: Row, r: Row)
    requires |r0.tokens| == |r0.order| == resident && Claiming(resident, id, 2 * resident, r0, r)
    ensures r.(owner := id) == Claim(r0, id)
  {
  }

  ghost predicate Tabling(k: int, w0: Scratch, w: Scratch) {
    var n := |w0.mark|;
    && w.epoch == w0.epoch && |w0.position| == n
    && w.mark == (if w0.epoch + 1 < EPOCH_RESET_THRESHOLD then w0.mark else Filled(w0.mark, k, 0))
    && w.position == if w0.epoch + 1 < EPOCH_RESET_THRESHOLD then w0.position else Filled(w0.position, k - n, -1)
  }

  lemma TableNext(k: nat, w0: Scratch, w: Scratch)
    requires k < 2 * |w0.mark| && Tabling(k, w0, w)
    ensures Tabling(k + 1, w0, TableOne(k, w))
  {
  }

  // ----- stamping

  ghost predicate Stamping(q: Query, w: Scratch, p: nat) {
    && p <= |q.topk| && Ready(w, q.maxToken)
    && forall t :: 0 <= t < q.maxToken ==>
         && (w.mark[t] == w.epoch <==> Shown(q, t) && t in q.topk[..p])
         && (Shown(q, t) && t in q.topk[..p] ==> w.position[t] == FirstPosition(q.topk, t))
  }

  ghost predicate Begun(r: Row, q: Query, w: Scratch, c: Cell) {
    var n := |q.topk|;
    && w.hits == [] && w.evictable == [] && w.missed == [] && w.current == |r.tokens| && c.row == r
    && c.plan.slots == Blank(n) && c.plan.missTokens == Blank(n) && c.plan.missSlots == Blank(n)
        && c.plan.missCount == 0
    && c.plan.encoded == seq(n, _ => 0)
  }

  /** A blank plan, a claimed row and a table that marks nothing yet. */
  lemma BeginStamps(q: Query, id: int, resident: nat, w0: Scratch, w: Scratch, c0: Cell, c: Cell)
    requires Ready(w0, q.maxToken) && Tabling(2 * |w0.mark|, w0, w) && Holds(resident, |q.topk|, c0)
    requires Clearing(|q.topk|, 4 * |q.topk|, c0.plan, c.plan) && c.plan.missCount == 0 && c.row == Claim(c0.row, id)
    ensures Stamping(q, EpochStep(resident, w), 0) && Begun(Claim(c0.row, id), q, EpochStep(resident, w), c)
  {
  }

  lemma StampNext(q: Query, w: Scratch, p: nat)
    requires Stamping(q, w, p) && p < |q.topk|
    ensures var w' := StampOne(q, p, w);
            && Stamping(q, w', p + 1) && w'.hits == w.hits && w'.evictable == w.evictable && w'.missed == w.missed
            && w'.current == w.current
  {
    assert q.topk[..p + 1] == q.topk[..p] + [q.topk[p]];
  }

  lemma StampDone(q: Query, w: Scratch)
    requires Stamping(q, w, |q.topk|)
    ensures Stamped(q, w.mark, w.position, w.epoch)
  {
    assert q.topk[..|q.topk|] == q.topk;
  }

  // ----- scanning

  ghost predicate Scanning(r: Row, q: Query, w: Scratch, c: Cell, j: nat) {
    var live, n := Live(r, q), |q.topk|;
    && j <= |r.order| && Ready(w, q.maxToken) && Stamped(q, w.mark, w.position, w.epoch)
    && c.row.owner == r.owner && c.row.order == r.order && c.row.tokens == LiveIn(r.order[..j], q, r.tokens)
    && w.hits == Filter(HitTest(live, q), r.order[..j]) && w.evictable == Filter(EvictTest(live, q), r.order[..j])
    && w.missed == [] && w.current == CurrentHit(r.order[..j], live, q)
    && c.plan.slots == LocatedTable(r.order[..j], live, q) && c.plan.encoded == HitCodes(c.plan.slots)
    && c.plan.missTokens == Blank(n) && c.plan.missSlots == Blank(n) && c.plan.missCount == 0
  }

  lemma ScanningStarts(r: Row, q: Query, w: Scratch, c: Cell)
    requires Begun(r, q, w, c) && Ready(w, q.maxToken) && Stamped(q, w.mark, w.position, w.epoch)
    ensures Scanning(r, q, w, c, 0)
  {
    assert r.order[..0] == [];
    NothingScanned(Live(r, q), q, r.tokens);
    hide LocatedTable, CurrentHit, LiveIn, Live, Stamped, Ready, Filter;
    assert c.plan.slots == LocatedTable([], Live(r, q), q);
    assert c.plan.encoded == HitCodes(c.plan.slots);
  }

  lemma SmallCast(v: int)
    requires -0x8000 <= v <= INT16_MAX
    ensures ToInt16(v) == v
  {
  }

  /** The state after a visit to slot s, whose live token is t. */
  function Visited(q: Query, w: Scratch, c: Cell, s: int, t: int): (Scratch, Cell)
    requires 0 <= s < |c.row.tokens|
  {
    var row := c.row.(tokens := c.row.tokens[s := t]);
    if Wanted(q, t) && FirstPosition(q.topk, t) < |c.plan.slots| == |c.plan.encoded| then
      var p := FirstPosition(q.topk, t);
      (w.(hits := w.hits + [s], current := if IsCurrent(q, t) then s else w.current),
       Cell(row, c.plan.(slots := c.plan.slots[p := s], encoded := c.plan.encoded[p := s + 1])))
    else (w.(evictable := w.evictable + [s]), Cell(row, c.plan))
  }

  lemma VisitMeans(q: Query, w: Scratch, c: Cell, j: nat)
    requires Stamped(q, w.mark, w.position, w.epoch) && |c.plan.slots| == |c.plan.encoded| == |q.topk|
    requires j < |c.row.order| && 0 <= c.row.order[j] < |c.row.tokens| < INT16_MAX
    ensures var token := c.row.tokens[c.row.order[j]];
            VisitOne(q, j, w, c)
            == Visited(q, w, c, c.row.order[j], if IsToken(q, token) && token >= q.stable then -1 else token)
  {
    SmallCast(c.row.order[j] + 1);
    hide ToInt16;
  }

  lemma ScanNext(r: Row, q: Query, w: Scratch, c: Cell, j: nat)
    requires Scanning(r, q, w, c, j) && j < |r.order| && |r.tokens| < INT16_MAX
    ensures var (w', c') := VisitOne(q, j, w, c); Scanning(r, q, w', c', j + 1)
  {
    hide Filter, LocatedTable, CurrentHit, ToInt16, HitCodes, LiveIn, Live, Stamped, VisitOne, Blank, FirstPosition;
    LiveStep(r.order, q, r.tokens, j);
    ScanStep(r.order, Live(r, q), q, j);
    LiveIsAll(r, q);
    var live, slot := Live(r, q), r.order[j];
    if 0 <= slot < |r.tokens| {
      VisitMeans(q, w, c, j);
      if IsHit(live, q, slot) { HitCodesUpdate(c.plan.slots, FirstPosition(q.topk, live[slot]), slot); }
    } else {
      VisitSkips(q, w, c, j);
    }
  }

  lemma LiveIsAll(r: Row, q: Query)
    ensures Live(r, q) == LiveIn(r.order, q, r.tokens)
  {
  }

  lemma HitCodesUpdate(table: seq<int>, p: nat, slot: int)
    requires p < |table|
    ensures HitCodes(table)[p := slot + 1] == HitCodes(table[p := slot])
  {
  }

  lemma VisitSkips(q: Query, w: Scratch, c: Cell, j: nat)
    requires j < |c.row.order| && !(0 <= c.row.order[j] < |c.row.tokens|)
    ensures VisitOne(q, j, w, c) == (w, c)
  {
  }

  // ----- collecting

  ghost predicate Collecting(r: Row, q: Query, w: Scratch, c: Cell, p: nat) {
    && p <= |q.topk| && Ready(w, q.maxToken)
    && c.row == Row(r.owner, Live(r, q), r.order) && w.hits == Hits(r, q) && w.evictable == Evictable(r, q)
    && w.current == CurrentHit(r.order, Live(r, q), q)
    && c.plan.slots == LocatedTable(r.order, Live(r, q), q) && c.plan.encoded == HitCodes(c.plan.slots)
    && c.plan.missSlots == Blank(|q.topk|) && c.plan.missCount == 0
    && w.missed == Filter(MissTest(r, q), Iota(|q.topk|)[..p])
    && MissesListed(q, w.missed, c.plan.missTokens)
  }

  ghost predicate MissesListed(q: Query, missed: seq<int>, tokens: seq<int>) {
    && |missed| <= |q.topk| == |tokens|
    && (forall i :: 0 <= i < |missed| ==> 0 <= missed[i] < |q.topk| && tokens[i] == q.topk[missed[i]])
    && forall i :: |missed| <= i < |q.topk| ==> tokens[i] == -1
  }

  lemma CollectingStarts(r: Row, q: Query, w: Scratch, c: Cell)
    requires Scanning(r, q, w, c, |r.order|)
    ensures Collecting(r, q, w, c, 0)
  {
    assert r.order[..|r.order|] == r.order;
    assert Iota(|q.topk|)[..0] == [];
    assert Filter(MissTest(r, q), []) == [];
    hide LocatedTable, CurrentHit, Stamped, Ready, MissTest;
  }

  lemma CollectNext(r: Row, q: Query, w: Scratch, c: Cell, p: nat)
    requires Collecting(r, q, w, c, p) && p < |q.topk|
    ensures var (w', c') := CollectOne(q, p, w, c); Collecting(r, q, w', c', p + 1)
  {
    MissStep(r, q, p);
    hide Filter, LocatedTable, CurrentHit, Live, MissTest, Hits, Evictable, Ready, HitCodes;
    assert |w.missed| <= p;
  }

  // ----- assigning

  ghost predicate Assigning(r: Row, q: Query, w: Scratch, c: Cell, m: nat) {
    Positions(r, q);
    && m <= Assigned(r, q) && Ready(w, q.maxToken)
    && w.hits == Hits(r, q) && w.evictable == Evictable(r, q) && w.missed == Misses(r, q)
    && c.row.owner == r.owner && c.row.order == r.order
    && c.row.tokens == Scatter(Live(r, q), Evictable(r, q), MissedTokens(r, q), m)
    && PlanFilled(r, q, m, c.plan.slots, c.plan.encoded, [], c.plan.missSlots, w.current)
    && c.plan.missTokens == Padded(MissedTokens(r, q), |q.topk|) && c.plan.missCount == m
  }

  lemma AssigningStarts(r: Row, q: Query, w: Scratch, c: Cell)
    requires Collecting(r, q, w, c, |q.topk|)
    ensures Assigning(r, q, w, c, 0)
  {
    assert Iota(|q.topk|)[..|q.topk|] == Iota(|q.topk|);
    hide Live, Hits, Evictable, CurrentHit, LocatedTable, MissTest, Filter, Ready, HitCodes;
    Positions(r, q);
    assert w.missed == Misses(r, q);
    assert c.plan.missTokens == Padded(MissedTokens(r, q), |q.topk|);
    assert Evictable(r, q)[..0] == [];
    assert c.plan.missSlots == Padded([], |q.topk|);
    assert c.plan.encoded + [] == c.plan.encoded;
  }

  lemma AssignNext(r: Row, q: Query, w: Scratch, c: Cell, m: nat)
    requires Assigning(r, q, w, c, m) && m < Assigned(r, q) && |r.tokens| < INT16_MAX
    ensures var (w', c') := AssignOne(q, m, w, c); Assigning(r, q, w', c', m + 1)
  {
    hide Live, Hits, Evictable, Misses, MissedTokens, Assigned, PlanFilled, ToInt16;
    Positions(r, q);
    PlanFillStep(r, q, m, c.plan.slots, c.plan.encoded, [], c.plan.missSlots, w.current);
    PlanCodes(r, q, m, c.plan.slots, c.plan.encoded, c.plan.missSlots, w.current);
    var slot, t, p := Evictable(r, q)[m], MissedTokens(r, q)[m], Misses(r, q)[m];
    PaddedAt(MissedTokens(r, q), |q.topk|, m);
    assert 0 <= slot < |r.tokens|;
    SmallCast(slot + 1);
    SmallCast(-(slot + 1));
    var (w', c') := AssignOne(q, m, w, c);
    assert c'.row.tokens == c.row.tokens[slot := t] && c'.plan.slots == c.plan.slots[p := slot];
    assert c'.plan.encoded == c.plan.encoded[p := MissCode(q, t, slot)]
           && c'.plan.missSlots == c.plan.missSlots[m := slot];
    assert w'.current == if IsCurrent(q, t) then slot else w.current;
  }

  lemma PlanCodes(r: Row, q: Query, m: nat, slots: seq<int>, codes: seq<int>, missSlots: seq<int>, current: int)
    requires PlanFilled(r, q, m, slots, codes, [], missSlots, current)
    ensures |slots| == |codes| == |missSlots| == |q.topk|
  {
    hide Live, Evictable, Misses, MissedTokens, Assigned, LocatedTable, MissCodes;
  }

  /** Once the misses or the slots have run out, further turns change nothing. */
  lemma AssignIdle(r: Row, q: Query, w: Scratch, c: Cell, m: nat)
    requires Assigning(r, q, w, c, Assigned(r, q)) && m >= Assigned(r, q)
    ensures AssignOne(q, m, w, c) == (w, c)
  {
    hide Live, Hits, Evictable, Misses, MissedTokens, PlanFilled, Ready;
  }

  // ----- writing the order

  lemma ListedFits(r: Row, q: Query)
    ensures |Hits(r, q)| + |Evictable(r, q)| <= |r.order|
  {
    var live := Live(r, q);
    FilterCounts(HitTest(live, q), EvictTest(live, q), (s: int) => HitTest(live, q)(s)
                 || EvictTest(live, q)(s), r.order);
  }

  /** The first k cells of the order are rewritten. */
  ghost predicate Writing(r: Row, q: Query, w: Scratch, c: Cell, k: nat) {
    var listed := ListedSlots(w);
    && Assigning(r, q, w, c.(row := c.row.(order := r.order)), Assigned(r, q)) && |listed| <= |r.order|
    && |c.row.order| == |r.order|
    && forall x :: 0 <= x < |r.order| ==> c.row.order[x] == if x < k && x < |listed| then listed[x] else r.order[x]
  }

  lemma WritingStarts(r: Row, q: Query, w: Scratch, c: Cell)
    requires Assigning(r, q, w, c, Assigned(r, q))
    ensures Writing(r, q, w, c, 0)
  {
    hide Live, Hits, Evictable, Misses, MissedTokens, PlanFilled, Ready, Scatter;
    ListedFits(r, q);
    assert c.(row := c.row.(order := r.order)) == c;
  }

  lemma WriteNext(r: Row, q: Query, w: Scratch, c: Cell, k: nat)
    requires Writing(r, q, w, c, k) && k < |r.order|
    ensures Writing(r, q, w, WriteOne(k, w, c), k + 1)
  {
    hide Assigning, ListedSlots;
    var c' := WriteOne(k, w, c);
    assert c'.(row := c'.row.(order := r.order)) == c.(row := c.row.(order := r.order));
  }

  lemma ReportIsSpecified(r: Row, q: Query, w: Scratch, c: Cell)
    requires Writing(r, q, w, c, |r.order|)
    ensures c.(plan := c.plan.(currentSlot := w.current))
            == Cell(Row(r.owner, NextTokens(r, q), NextOrder(r, q)), PlanFor(r, r.owner, q))
    ensures Ready(w, q.maxToken)
  {
    hide Live, Hits, Evictable, Misses, MissedTokens, PlanFilled, Slots, Encoded, CurrentSlot;
    PlanCodes(r, q, Assigned(r, q), c.plan.slots, c.plan.encoded, c.plan.missSlots, w.current);
    PlanFinished(r, q, c.plan.slots, c.plan.encoded, [], c.plan.missSlots, w.current);
    assert c.plan.encoded[..|q.topk|] == c.plan.encoded;
    ClaimOnce(r, r.owner);
    assert c.row.order == NextOrder(r, q);
  }

  // ----- the whole program

  /** The state after k steps of row i, run alone. */
  ghost function After(reqs: seq<Request>, maxToken: nat, resident: nat, i: nat, w: Scratch, c: Cell, k: nat): (Scratch,
      Cell) {
    if k == 0 then (w, c)
    else
      var (w', c') := After(reqs, maxToken, resident, i, w, c, k - 1);
      Atomic(reqs, maxToken, resident, i, k - 1, w', c')
  }

  lemma {:induction false} AfterIsIterate(reqs: seq<Request>, maxToken: nat, resident: nat, threads: nat, i: nat,
                                          w: Scratch,
                                          c: Cell, k: nat)
    requires threads > 0
    ensures Iterate(BatchProgram(reqs, maxToken, resident, threads), i, w, c, k)
            == After(reqs, maxToken, resident, i, w, c, k)
  {
    hide Atomic;
    if k > 0 { AfterIsIterate(reqs, maxToken, resident, threads, i, w, c, k - 1); }
  }

  lemma AfterNone(reqs: seq<Request>, maxToken: nat, resident: nat, i: nat, w: Scratch, c: Cell)
    ensures After(reqs, maxToken, resident, i, w, c, 0) == (w, c)
  {
  }

  /** Before and after one step. */
  lemma AfterStep(reqs: seq<Request>, maxToken: nat, resident: nat, i: nat, w: Scratch, c: Cell, k: nat)
    returns (w': Scratch, c': Cell)
    ensures After(reqs, maxToken, resident, i, w, c, k) == (w', c')
    ensures After(reqs, maxToken, resident, i, w, c, k + 1) == Atomic(reqs, maxToken, resident, i, k, w', c')
  {
    hide Atomic;
    var s := After(reqs, maxToken, resident, i, w, c, k);
    w', c' := s.0, s.1;
  }

  ghost predicate Runs(reqs: seq<Request>, maxToken: nat, resident: nat, i: nat, w: Scratch, c: Cell) {
    i < |reqs| && resident < INT16_MAX && Ready(w, maxToken) && Holds(resident, |reqs[i].topk|, c)
  }

  lemma {:induction false} AfterClearing(reqs: seq<Request>, maxToken: nat, resident: nat, i: nat, w: Scratch, c: Cell,
                                         k: nat)
    requires Runs(reqs, maxToken, resident, i, w, c) && k <= 4 * |reqs[i].topk|
    ensures var (w', c') := After(reqs, maxToken, resident, i, w, c, k);
            w' == w && c'.row == c.row && Clearing(|reqs[i].topk|, k, c.plan, c'.plan)
  {
    hide After, ClearOne, Ready, QueryOf;
    if k == 0 {
      AfterNone(reqs, maxToken, resident, i, w, c);
    } else {
      hide Clearing;
      AfterClearing(reqs, maxToken, resident, i, w, c, k - 1);
      var w', c' := AfterStep(reqs, maxToken, resident, i, w, c, k - 1);
      ClearNext(|reqs[i].topk|, k - 1, c.plan, c'.plan);
    }
  }

  /** The plan of c is blank. */
  ghost predicate Cleared(n: nat, c0: Cell, c: Cell) { Clearing(n, 4 * n, c0.plan, c.plan) && c.plan.missCount == 0 }

  lemma CountReset(n: nat, c0: Cell, c: Cell)
    requires Clearing(n, 4 * n, c0.plan, c.plan)
    ensures Cleared(n, c0, c.(plan := c.plan.(missCount := 0)))
  {
  }

  lemma {:induction false} AfterClaiming(reqs: seq<Request>, maxToken: nat, resident: nat, i: nat, w: Scratch, c: Cell,
                                         k: nat)
    requires Runs(reqs, maxToken, resident, i, w, c) && k <= 2 * resident
    ensures var n := |reqs[i].topk|;
            var (w', c') := After(reqs, maxToken, resident, i, w, c, 4 * n + 1 + k);
            w' == w && Cleared(n, c, c') && Claiming(resident, reqs[i].id, k, c.row, c'.row)
  {
    hide After, ResetOne, Ready, QueryOf, Clearing, Cleared;
    var n := |reqs[i].topk|;
    if k == 0 {
      AfterClearing(reqs, maxToken, resident, i, w, c, 4 * n);
      var w', c' := AfterStep(reqs, maxToken, resident, i, w, c, 4 * n);
      CountReset(n, c, c');
      assert Claiming(resident, reqs[i].id, 0, c.row, c.row);
    } else {
      hide Claiming;
      AfterClaiming(reqs, maxToken, resident, i, w, c, k - 1);
      var w', c' := AfterStep(reqs, maxToken, resident, i, w, c, 4 * n + k);
      ClaimNext(resident, reqs[i].id, k - 1, c.row, c'.row);
      ClearedStays(n, c, c', c'.(row := ResetOne(resident, reqs[i].id, k - 1, c'.row)));
    }
  }

  lemma ClearedStays(n: nat, c0: Cell, c: Cell, c': Cell)
    requires Cleared(n, c0, c) && c'.plan == c.plan
    ensures Cleared(n, c0, c')
  {
  }

  lemma {:induction false} AfterTable(reqs: seq<Request>, maxToken: nat, resident: nat, i: nat, w: Scratch, c: Cell,
                                      k: nat)
    requires Runs(reqs, maxToken, resident, i, w, c) && k <= 2 * maxToken
    ensures var n := |reqs[i].topk|;
            var (w', c') := After(reqs, maxToken, resident, i, w, c, 4 * n + 2 * resident + 2 + k);
            |w.mark| == maxToken && Tabling(k, w, w') && Cleared(n, c, c') && c'.row == Claim(c.row, reqs[i].id)
  {
    hide After, TableOne, QueryOf, Clearing, Cleared;
    var n := |reqs[i].topk|;
    if k == 0 {
      AfterClaiming(reqs, maxToken, resident, i, w, c, 2 * resident);
      var w', c' := AfterStep(reqs, maxToken, resident, i, w, c, 4 * n + 2 * resident + 1);
      ClaimDone(resident, reqs[i].id, c.row, c'.row);
      ClearedStays(n, c, c', c'.(row := c'.row.(owner := reqs[i].id)));
      assert Tabling(0, w, w);
    } else {
      hide Tabling, Claim;
      AfterTable(reqs, maxToken, resident, i, w, c, k - 1);
      var w', c' := AfterStep(reqs, maxToken, resident, i, w, c, 4 * n + 2 * resident + 1 + k);
      TableNext(k - 1, w, w');
    }
  }

  lemma {:induction false} AfterStamping(reqs: seq<Request>, maxToken: nat, resident: nat, i: nat, w: Scratch, c: Cell,
                                         p: nat)
    requires Runs(reqs, maxToken, resident, i, w, c) && p <= |reqs[i].topk|
    ensures var n := |reqs[i].topk|;
            var (w', c') := After(reqs, maxToken, resident, i, w, c, StampAt(n, maxToken, resident) + p);
            var q := QueryOf(reqs[i], maxToken);
            Stamping(q, w', p) && Begun(Claim(c.row, reqs[i].id), q, w', c')
  {
    hide After, Stamping, Begun, EpochStep, StampOne, Claim, Tabling, Clearing, Ready, QueryOf;
    var q, n := QueryOf(reqs[i], maxToken), |reqs[i].topk|;
    if p == 0 {
      AfterTable(reqs, maxToken, resident, i, w, c, 2 * maxToken);
      var w', c' := AfterStep(reqs, maxToken, resident, i, w, c, 4 * n + 2 * resident + 2 + 2 * maxToken);
      BeginStamps(q, reqs[i].id, resident, w, w', c, c');
    } else {
      AfterStamping(reqs, maxToken, resident, i, w, c, p - 1);
      var w', c' := AfterStep(reqs, maxToken, resident, i, w, c, StampAt(n, maxToken, resident) + p - 1);
      StampNext(q, w', p - 1);
      BegunStays(Claim(c.row, reqs[i].id), q, w', StampOne(q, p - 1, w'), c');
    }
  }

  lemma BegunStays(r: Row, q: Query, w: Scratch, w': Scratch, c: Cell)
    requires Begun(r, q, w, c) && w'.hits == w.hits && w'.evictable == w.evictable && w'.missed == w.missed
    requires w'.current == w.current
    ensures Begun(r, q, w', c)
  {
  }

  lemma {:induction false} AfterScanning(reqs: seq<Request>, maxToken: nat, resident: nat, i: nat, w: Scratch, c: Cell,
                                         j: nat)
    requires Runs(reqs, maxToken, resident, i, w, c) && j <= resident
    ensures var r, n := Claim(c.row, reqs[i].id), |reqs[i].topk|;
            var (w', c') := After(reqs, maxToken, resident, i, w, c, StampAt(n, maxToken, resident) + n + j);
            |r.tokens| == |r.order| == resident && Scanning(r, QueryOf(reqs[i], maxToken), w', c', j)
  {
    hide After, Stamping, Begun, Scanning, VisitOne, Ready, QueryOf;
    var q, r, n := QueryOf(reqs[i], maxToken), Claim(c.row, reqs[i].id), |reqs[i].topk|;
    if j == 0 {
      AfterStamping(reqs, maxToken, resident, i, w, c, n);
      var s := After(reqs, maxToken, resident, i, w, c, StampAt(n, maxToken, resident) + n);
      StampReady(q, s.0);
      StampDone(q, s.0);
      ScanningStarts(r, q, s.0, s.1);
    } else {
      AfterScanning(reqs, maxToken, resident, i, w, c, j - 1);
      var w', c' := AfterStep(reqs, maxToken, resident, i, w, c, StampAt(n, maxToken, resident) + n + j - 1);
      ScanNext(r, q, w', c', j - 1);
    }
  }

  lemma StampReady(q: Query, w: Scratch)
    requires Stamping(q, w, |q.topk|)
    ensures Ready(w, q.maxToken)
  {
  }

  lemma {:induction false} AfterCollecting(reqs: seq<Request>, maxToken: nat, resident: nat, i: nat, w: Scratch,
                                           c: Cell, p: nat)
    requires Runs(reqs, maxToken, resident, i, w, c) && p <= |reqs[i].topk|
    ensures var n := |reqs[i].topk|;
            var (w', c') := After(reqs, maxToken, resident, i, w, c, StampAt(n, maxToken, resident) + n + resident + p);
            Collecting(Claim(c.row, reqs[i].id), QueryOf(reqs[i], maxToken), w', c', p)
  {
    hide After, Scanning, Collecting, CollectOne, Ready, QueryOf;
    var q, r, n := QueryOf(reqs[i], maxToken), Claim(c.row, reqs[i].id), |reqs[i].topk|;
    var at := StampAt(n, maxToken, resident) + n + resident;
    if p == 0 {
      AfterScanning(reqs, maxToken, resident, i, w, c, resident);
      var s := After(reqs, maxToken, resident, i, w, c, at);
      CollectingStarts(r, q, s.0, s.1);
    } else {
      AfterCollecting(reqs, maxToken, resident, i, w, c, p - 1);
      var w', c' := AfterStep(reqs, maxToken, resident, i, w, c, at + p - 1);
      CollectNext(r, q, w', c', p - 1);
    }
  }

  lemma {:induction false} AfterAssigning(reqs: seq<Request>, maxToken: nat, resident: nat, i: nat, w: Scratch, c: Cell,
                                          m: nat)
    requires Runs(reqs, maxToken, resident, i, w, c) && m <= |reqs[i].topk|
    ensures var r, q, n := Claim(c.row, reqs[i].id), QueryOf(reqs[i], maxToken), |reqs[i].topk|;
            var (w', c') := After(reqs, maxToken, resident, i, w, c, StampAt(n, maxToken, resident) + 2 * n + resident
                                  + m);
            |r.tokens| == |r.order| == resident && Assigning(r, q, w', c', Min(m, Assigned(r, q)))
  {
    hide After, Collecting, Assigning, AssignOne, Ready, QueryOf, Assigned;
    var q, r, n := QueryOf(reqs[i], maxToken), Claim(c.row, reqs[i].id), |reqs[i].topk|;
    var at := StampAt(n, maxToken, resident) + 2 * n + resident;
    if m == 0 {
      AfterCollecting(reqs, maxToken, resident, i, w, c, n);
      var s := After(reqs, maxToken, resident, i, w, c, at);
      AssigningStarts(r, q, s.0, s.1);
    } else {
      AfterAssigning(reqs, maxToken, resident, i, w, c, m - 1);
      var w', c' := AfterStep(reqs, maxToken, resident, i, w, c, at + m - 1);
      if m - 1 < Assigned(r, q) { AssignNext(r, q, w', c', m - 1); } else { AssignIdle(r, q, w', c', m - 1); }
    }
  }

  lemma NoMoreThanAsked(r: Row, q: Query)
    ensures Assigned(r, q) <= |q.topk|
  {
  }

  lemma {:induction false} AfterWriting(reqs: seq<Request>, maxToken: nat, resident: nat, i: nat, w: Scratch, c: Cell,
                                        k: nat)
    requires Runs(reqs, maxToken, resident, i, w, c) && k <= resident
    ensures var r, n := Claim(c.row, reqs[i].id), |reqs[i].topk|;
            var (w', c') := After(reqs, maxToken, resident, i, w, c, StampAt(n, maxToken, resident) + 3 * n + resident
                                  + k);
            |r.order| == resident && Writing(r, QueryOf(reqs[i], maxToken), w', c', k)
  {
    hide After, Assigning, Writing, WriteOne, Ready, QueryOf, Assigned;
    var q, r, n := QueryOf(reqs[i], maxToken), Claim(c.row, reqs[i].id), |reqs[i].topk|;
    var at := StampAt(n, maxToken, resident) + 3 * n + resident;
    if k == 0 {
      NoMoreThanAsked(r, q);
      AfterAssigning(reqs, maxToken, resident, i, w, c, n);
      var s := After(reqs, maxToken, resident, i, w, c, at);
      WritingStarts(r, q, s.0, s.1);
    } else {
      AfterWriting(reqs, maxToken, resident, i, w, c, k - 1);
      var w', c' := AfterStep(reqs, maxToken, resident, i, w, c, at + k - 1);
      WriteNext(r, q, w', c', k - 1);
    }
  }

  /** The program computes the specified row and plan, from any valid scratch memory, and leaves it valid. */
  lemma ProgramComputes(reqs: seq<Request>, maxToken: nat, resident: nat, i: nat, w: Scratch, c: Cell)
    requires Runs(reqs, maxToken, resident, i, w, c)
    ensures var (w', c') := After(reqs, maxToken, resident, i, w, c, Steps(reqs, maxToken, resident, i));
            var step := StepOf(reqs[i], maxToken);
            Ready(w', maxToken) && c' == Cell(RowAfter(c.row, step), PlanOf(c.row, step))
  {
    hide After, Writing, Ready, NextTokens, NextOrder, Slots, Encoded, CurrentSlot, MissedTokens, Evictable, Assigned;
    var q, r, n := QueryOf(reqs[i], maxToken), Claim(c.row, reqs[i].id), |reqs[i].topk|;
    AfterWriting(reqs, maxToken, resident, i, w, c, resident);
    var last := StampAt(n, maxToken, resident) + 3 * n + 2 * resident;
    var w', c' := AfterStep(reqs, maxToken, resident, i, w, c, last);
    ReportIsSpecified(r, q, w', c');
    ClaimOnce(c.row, reqs[i].id);
  }

  function RowResult(reqs: seq<Request>, maxToken: int): (nat, Cell) -> Cell {
    (i: nat, c: Cell) =>
      if i < |reqs| then Cell(RowAfter(c.row, StepOf(reqs[i], maxToken)), PlanOf(c.row, StepOf(reqs[i], maxToken)))
          else c
  }

  /** So each task of the batch program does what its row step is specified to do. */
  lemma ProgramMeets(reqs: seq<Request>, maxToken: nat, resident: nat, topk: nat, threads: nat)
    requires threads > 0 && resident < INT16_MAX && forall i :: 0 <= i < |reqs| ==> |reqs[i].topk| == topk
    ensures Meets(BatchProgram(reqs, maxToken, resident, threads), ReadyFor(maxToken), HoldsRows(resident, topk),
                  RowResult(reqs, maxToken))
  {
    hide Atomic, Iterate, After, Ready, Holds, RowAfter, PlanOf, StepOf;
    var prog := BatchProgram(reqs, maxToken, resident, threads);
    forall i: nat, w: Scratch, c: Cell | ReadyFor(maxToken)(w) && HoldsRows(resident, topk)(c)
      ensures var (w', c') := Iterate(prog, i, w, c, prog.length(i));
              ReadyFor(maxToken)(w') && c' == RowResult(reqs, maxToken)(i, c)
    {
      AfterIsIterate(reqs, maxToken, resident, threads, i, w, c, Steps(reqs, maxToken, resident, i));
      if i < |reqs| {
        ProgramComputes(reqs, maxToken, resident, i, w, c);
      } else {
        AfterNone(reqs, maxToken, resident, i, w, c);
      }
    }
  }
}
