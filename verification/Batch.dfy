/** A batch: every logical row runs once, on the physical row assigned to it. */
module Batch {
  import opened Lists
  import opened Resident
  import opened ResidentLaws
  import opened ResidentRuns
  import opened RowAssignment
  import opened RowStep
  import opened RequestLaws

  function Owners(rows: seq<Row>): (owners: seq<int>)
    ensures |owners| == |rows| && forall p :: 0 <= p < |rows| ==> owners[p] == rows[p].owner
  {
    seq(|rows|, p requires 0 <= p < |rows| => rows[p].owner)
  }

  function Ids(reqs: seq<Request>): (ids: seq<int>)
    ensures |ids| == |reqs| && forall i :: 0 <= i < |reqs| ==> ids[i] == reqs[i].id
  {
    seq(|reqs|, i requires 0 <= i < |reqs| => reqs[i].id)
  }

  function Physical(rows: seq<Row>, reqs: seq<Request>): (phys: seq<int>)
    requires |reqs| <= |rows|
    ensures |phys| == |reqs| && NoDup(phys) && forall i :: 0 <= i < |phys| ==> 0 <= phys[i] < |rows|
  {
    RowsFor(Owners(rows), Ids(reqs))
  }

  function Serves(phys: seq<int>, p: int): int -> bool {
    j => 0 <= j < |phys| && phys[j] == p
  }

  /** The logical row that works on physical row p, or -1. */
  function Serving(phys: seq<int>, p: int): (i: int)
    ensures i == -1 || (0 <= i < |phys| && phys[i] == p)
    ensures i == -1 ==> forall j :: 0 <= j < |phys| ==> phys[j] != p
  {
    var i := First(Serves(phys, p), |phys|);
    assert forall j :: 0 <= j < |phys| && phys[j] == p ==> Serves(phys, p)(j);
    i
  }

  lemma ServingIs(phys: seq<int>, i: nat)
    requires NoDup(phys) && i < |phys|
    ensures Serving(phys, phys[i]) == i
  {
  }

  function StepOf(req: Request, maxToken: int): Step { Step(req.id, QueryOf(req, maxToken)) }

  function RowAfter(row: Row, step: Step): Row { NextRow(row, step.id, step.q) }

  function PlanOf(row: Row, step: Step): Plan { PlanFor(row, step.id, step.q) }

  /** All physical rows after a batch. */
  function NextRows(rows: seq<Row>, reqs: seq<Request>, maxToken: int): (rows': seq<Row>)
    requires |reqs| <= |rows|
    ensures |rows'| == |rows|
  {
    var phys := Physical(rows, reqs);
    seq(|rows|, p requires 0 <= p < |rows| =>
      var i := Serving(phys, p);
      if i < 0 then rows[p] else RowAfter(rows[p], StepOf(reqs[i], maxToken)))
  }

  lemma NextRowsAt(rows: seq<Row>, reqs: seq<Request>, maxToken: int, p: nat)
    requires |reqs| <= |rows| && p < |rows|
    ensures var i := Serving(Physical(rows, reqs), p);
            NextRows(rows, reqs, maxToken)[p] == if i < 0 then rows[p] else RowAfter(rows[p], StepOf(reqs[i], maxToken))
  {
  }

  /** Each logical row's plan answers its own request from the row assigned to it, which steps
      accordingly; every other row rests. */
  lemma BatchAnswers(rows: seq<Row>, reqs: seq<Request>, maxToken: int, i: nat, pos: nat)
    requires i < |reqs| <= |rows| && pos < |reqs[i].topk|
    requires forall p :: 0 <= p < |rows| ==> RowSound(rows[p], maxToken)
    ensures var phys := Physical(rows, reqs);
            var p := phys[i];
            && Answers(rows[p], reqs[i], maxToken, PlanOf(rows[p], StepOf(reqs[i], maxToken)), pos)
            && NextRows(rows, reqs, maxToken)[p] == Stepped(rows[p], reqs[i], maxToken)
            && forall r :: 0 <= r < |rows| && r !in phys ==> NextRows(rows, reqs, maxToken)[r] == rows[r]
  {
    var phys := Physical(rows, reqs);
    ServingIs(phys, i);
    hide RowSound, Answers, RowsFor, NextTokens, NextOrder, Slots, Encoded, CurrentSlot;
    PlanAnswers(rows[phys[i]], reqs[i], maxToken, pos);
  }

  // ----- runs of batches

  ghost predicate Fit(batches: seq<seq<Request>>, rows: nat) {
    forall k :: 0 <= k < |batches| ==> |batches[k]| <= rows
  }

  function After(rows: seq<Row>, batches: seq<seq<Request>>, maxToken: int): (r: seq<Row>)
    requires Fit(batches, |rows|)
    ensures |r| == |rows|
  {
    if batches == [] then rows
    else NextRows(After(rows, batches[..|batches| - 1], maxToken), batches[|batches| - 1], maxToken)
  }

  /** The steps a run of batches makes on physical row p. */
  function StepsOn(rows: seq<Row>, batches: seq<seq<Request>>, maxToken: int, p: nat): (steps: seq<Step>)
    requires Fit(batches, |rows|) && p < |rows|
    ensures SameTable(steps, maxToken)
  {
    if batches == [] then []
    else
      var front, last := batches[..|batches| - 1], batches[|batches| - 1];
      var i := Serving(Physical(After(rows, front, maxToken), last), p);
      StepsOn(rows, front, maxToken, p) + if i < 0 then [] else [StepOf(last[i], maxToken)]
  }

  /** Seen from one physical row, a run of batches is a run of row steps: what is proved of row
      runs holds of every physical row in every run of batches. */
  lemma {:induction false} Projection(rows: seq<Row>, batches: seq<seq<Request>>, maxToken: int, p: nat)
    requires Fit(batches, |rows|) && p < |rows|
    ensures After(rows, batches, maxToken)[p] == Run(rows[p], StepsOn(rows, batches, maxToken, p))
  {
    if batches != [] {
      var front, last := batches[..|batches| - 1], batches[|batches| - 1];
      Projection(rows, front, maxToken, p);
      LastBatch(rows, batches, maxToken, p);
      hide After, StepsOn, RowAfter, Physical, Run;
      var i := Serving(Physical(After(rows, front, maxToken), last), p);
      if i >= 0 { RunAppend(rows[p], StepsOn(rows, front, maxToken, p), StepOf(last[i], maxToken)); }
    }
  }

  /** What the last batch does to physical row p. */
  lemma LastBatch(rows: seq<Row>, batches: seq<seq<Request>>, maxToken: int, p: nat)
    requires Fit(batches, |rows|) && p < |rows| && batches != []
    ensures var front, last := batches[..|batches| - 1], batches[|batches| - 1];
            var before := After(rows, front, maxToken);
            var steps, i := StepsOn(rows, front, maxToken, p), Serving(Physical(before, last), p);
            if i < 0 then After(rows, batches, maxToken)[p] == before[p] && StepsOn(rows, batches, maxToken, p) == steps
            else && After(rows, batches, maxToken)[p] == RowAfter(before[p], StepOf(last[i], maxToken))
                 && StepsOn(rows, batches, maxToken, p) == steps + [StepOf(last[i], maxToken)]
  {
    hide RowAfter, StepOf, Physical, Serving;
  }

  lemma RunAppend(row: Row, steps: seq<Step>, step: Step)
    ensures Run(row, steps + [step]) == RowAfter(Run(row, steps), step)
  {
    assert (steps + [step])[..|steps|] == steps;
    hide NextRow;
  }

  // ----- who owns the rows, over runs

  lemma OwnerAfterBatch(rows: seq<Row>, reqs: seq<Request>, maxToken: int, p: nat)
    requires |reqs| <= |rows| && p < |rows|
    ensures NextRows(rows, reqs, maxToken)[p].owner == NextOwner(Owners(rows), Ids(reqs), p)
  {
    NextRowsAt(rows, reqs, maxToken, p);
    var phys := Physical(rows, reqs);
    var f := (j: int) => 0 <= j < |phys| && phys[j] == p;
    hide RowsFor, NextTokens, NextOrder, NextRows;
    var i, n := Serving(phys, p), First(f, |reqs|);
    if i >= 0 {
      assert f(i);
      ServingIs(phys, i);
      ServingIs(phys, n);
    }
  }

  /** No request owns two rows. */
  ghost predicate OneRowEach(rows: seq<Row>) {
    forall p, r :: 0 <= p < r < |rows| && rows[p].owner == rows[r].owner ==> rows[p].owner == EMPTY
  }

  /** One batch of distinct requests: ownership stays unique, and a request that owns a row works on it. */
  lemma BatchKeepsOwners(rows: seq<Row>, reqs: seq<Request>, maxToken: int)
    requires |reqs| <= |rows| && NoDup(Ids(reqs)) && OneRowEach(rows)
    ensures OneRowEach(NextRows(rows, reqs, maxToken))
    ensures forall i, p :: 0 <= i < |reqs| && 0 <= p < |rows| && rows[p].owner == reqs[i].id != EMPTY ==>
              Physical(rows, reqs)[i] == p
  {
    var owners, ids, next := Owners(rows), Ids(reqs), NextRows(rows, reqs, maxToken);
    hide NextRows, RowsFor, NextOwner;
    assert UniqueOwners(OwnersNow(owners), |owners|);
    OwnersStayUnique(owners, ids);
    forall p, r | 0 <= p < r < |next| && next[p].owner == next[r].owner ensures next[p].owner == EMPTY {
      OwnerAfterBatch(rows, reqs, maxToken, p);
      OwnerAfterBatch(rows, reqs, maxToken, r);
      assert OwnersNext(owners, ids)(p) == OwnersNext(owners, ids)(r);
    }
    forall i, p | 0 <= i < |reqs| && 0 <= p < |rows| && rows[p].owner == reqs[i].id != EMPTY
      ensures Physical(rows, reqs)[i] == p
    {
      assert owners[p] == ids[i];
    }
  }

  ghost predicate DistinctIds(batches: seq<seq<Request>>) {
    forall k :: 0 <= k < |batches| ==> NoDup(Ids(batches[k]))
  }

  /** In every run of batches of distinct requests no request ever owns two rows. */
  lemma {:induction false} RunKeepsOwners(rows: seq<Row>, batches: seq<seq<Request>>, maxToken: int)
    requires Fit(batches, |rows|) && DistinctIds(batches) && OneRowEach(rows)
    ensures OneRowEach(After(rows, batches, maxToken))
  {
    if batches != [] {
      hide NextRows;
      var front := batches[..|batches| - 1];
      RunKeepsOwners(rows, front, maxToken);
      BatchKeepsOwners(After(rows, front, maxToken), batches[|batches| - 1], maxToken);
    }
  }

  /** The physical row of logical row i of batch k. */
  function RowOf(rows: seq<Row>, batches: seq<seq<Request>>, maxToken: int, k: nat, i: nat): (p: nat)
    requires Fit(batches, |rows|) && k < |batches| && i < |batches[k]|
    ensures p < |rows|
  {
    Physical(After(rows, batches[..k], maxToken), batches[k])[i]
  }

  /** Batch m lets no request but id work on physical row p. */
  ghost predicate LeavesTo(rows: seq<Row>, batches: seq<seq<Request>>, maxToken: int, m: nat, p: nat, id: int)
    requires Fit(batches, |rows|)
  {
    m < |batches| && forall i :: 0 <= i < |batches[m]| && RowOf(rows, batches, maxToken, m, i) == p ==>
          batches[m][i].id == id
  }

  lemma OwnerStays(rows: seq<Row>, batches: seq<seq<Request>>, maxToken: int, m: nat, p: nat, id: int)
    requires Fit(batches, |rows|) && m < |batches| && p < |rows| && LeavesTo(rows, batches, maxToken, m, p, id)
    requires After(rows, batches[..m], maxToken)[p].owner == id
    ensures After(rows, batches[..m + 1], maxToken)[p].owner == id
  {
    var before := After(rows, batches[..m], maxToken);
    assert batches[..m + 1][..m] == batches[..m];
    NextRowsAt(before, batches[m], maxToken, p);
    hide NextRows, Physical, NextTokens, NextOrder;
    var i := Serving(Physical(before, batches[m]), p);
    if i >= 0 { assert RowOf(rows, batches, maxToken, m, i) == p; }
  }

  lemma ServedOwns(rows: seq<Row>, batches: seq<seq<Request>>, maxToken: int, j: nat, i: nat)
    requires Fit(batches, |rows|) && j < |batches| && i < |batches[j]|
    ensures After(rows, batches[..j + 1], maxToken)[RowOf(rows, batches, maxToken, j, i)].owner == batches[j][i].id
  {
    var before, p := After(rows, batches[..j], maxToken), RowOf(rows, batches, maxToken, j, i);
    assert batches[..j + 1][..j] == batches[..j];
    NextRowsAt(before, batches[j], maxToken, p);
    ServingIs(Physical(before, batches[j]), i);
    hide NextRows, Physical, NextTokens, NextOrder;
  }

  lemma {:induction false} OwnerSince(rows: seq<Row>, batches: seq<seq<Request>>, maxToken: int, j: nat, i: nat, k: nat)
    requires Fit(batches, |rows|) && j < k <= |batches| && i < |batches[j]|
    requires forall m :: j < m < k ==> LeavesTo(rows, batches, maxToken, m, RowOf(rows, batches, maxToken, j, i),
                                                batches[j][i].id)
    ensures After(rows, batches[..k], maxToken)[RowOf(rows, batches, maxToken, j, i)].owner == batches[j][i].id
    decreases k
  {
    hide After, RowOf, LeavesTo;
    if k == j + 1 {
      ServedOwns(rows, batches, maxToken, j, i);
    } else {
      OwnerSince(rows, batches, maxToken, j, i, k - 1);
      OwnerStays(rows, batches, maxToken, k - 1, RowOf(rows, batches, maxToken, j, i), batches[j][i].id);
    }
  }

  /** A request that comes back, after any number of batches, works on the row it had, provided no
      other request was given that row in between. */
  lemma ReturnsToItsRow(rows: seq<Row>, batches: seq<seq<Request>>, maxToken: int, j: nat, i: nat, k: nat, l: nat)
    requires Fit(batches, |rows|) && DistinctIds(batches) && OneRowEach(rows)
    requires j < k < |batches| && i < |batches[j]| && l < |batches[k]| && batches[j][i].id == batches[k][l].id != EMPTY
    requires forall m :: j < m < k ==> LeavesTo(rows, batches, maxToken, m, RowOf(rows, batches, maxToken, j, i),
                                                batches[j][i].id)
    ensures RowOf(rows, batches, maxToken, k, l) == RowOf(rows, batches, maxToken, j, i)
  {
    var before := After(rows, batches[..k], maxToken);
    OwnerSince(rows, batches, maxToken, j, i, k);
    RunKeepsOwners(rows, batches[..k], maxToken);
    hide After, NextRows, Physical, LeavesTo, OneRowEach;
    BatchKeepsOwners(before, batches[k], maxToken);
    assert before[RowOf(rows, batches, maxToken, j, i)].owner == batches[k][l].id;
  }

  ghost predicate Empty(rows: seq<Row>, maxToken: int) {
    forall p :: 0 <= p < |rows| ==>
      RowValid(rows[p], maxToken) && forall s :: 0 <= s < |rows[p].tokens| ==> rows[p].tokens[s] < 0
  }

  /** In the last batch of any run from empty rows, a hit for token t in slot s goes back to a miss
      of the same request on the same physical row; since then t stayed in s, and below the stable
      prefix of every batch that processed the row. */
  lemma BatchHitProvenance(rows: seq<Row>, batches: seq<seq<Request>>, maxToken: int, i: nat, t: int, s: int)
    requires Fit(batches, |rows|) && Empty(rows, maxToken) && batches != []
    requires i < |batches[|batches| - 1]|
    requires var before, last := After(rows, batches[..|batches| - 1], maxToken), batches[|batches| - 1];
             var p, step := Physical(before, last)[i], StepOf(last[i], maxToken);
             HitsWith(Claim(before[p], step.id), step.q, t, s)
    ensures var before, last := After(rows, batches[..|batches| - 1], maxToken), batches[|batches| - 1];
            var p, step := Physical(before, last)[i], StepOf(last[i], maxToken);
            var earlier := StepsOn(rows, batches[..|batches| - 1], maxToken, p);
            && t < step.q.stable && t < last[i].stablePrefix
            && StepsOn(rows, batches, maxToken, p) == earlier + [step]
            && Held(rows[p], earlier + [step], |earlier|, step.id, t, s)
  {
    var front, last := batches[..|batches| - 1], batches[|batches| - 1];
    var before := After(rows, front, maxToken);
    var p, step := Physical(before, last)[i], StepOf(last[i], maxToken);
    var earlier := StepsOn(rows, front, maxToken, p);
    Projection(rows, front, maxToken, p);
    ServingIs(Physical(before, last), i);
    assert (earlier + [step])[..|earlier|] == earlier;
    LastBatch(rows, batches, maxToken, p);
    hide NextRow, Run, Held, Physical, HitsWith, After, StepsOn;
    assert HitAt(rows[p], earlier + [step], |earlier|, t, s);
    HitProvenance(rows[p], earlier + [step], maxToken, |earlier|, t, s);
  }

  /** In every run of batches every physical row keeps its slots in order of last use. */
  lemma BatchOrderIsLru(rows: seq<Row>, batches: seq<seq<Request>>, maxToken: int, p: nat)
    requires Fit(batches, |rows|) && p < |rows| && Ordered(rows[p])
    ensures SortedBy(After(rows, batches, maxToken)[p].order, s => LastUsed(rows[p],
            StepsOn(rows, batches, maxToken, p), s))
  {
    Projection(rows, batches, maxToken, p);
    OrderIsLru(rows[p], StepsOn(rows, batches, maxToken, p));
  }

  /** Under the limits the entry points check, no code and no control cell is changed by its cast
      to int16, and the control cells lie past the plan. */
  lemma PlanFitsInt16(row: Row, step: Step, capacity: int, physicalRow: int, p: nat)
    requires Ordered(row) && |row.tokens| == capacity - 1 && capacity <= INT16_MAX && 0 <= physicalRow < INT16_MAX
    requires p < |step.q.topk|
    ensures -capacity < PlanOf(row, step).encoded[p] < capacity
    ensures ToInt16(PlanOf(row, step).encoded[p]) == PlanOf(row, step).encoded[p]
    ensures forall tail :: |tail| >= 7 ==>
              Control(tail, physicalRow, capacity)[4..7] == [physicalRow, 0x5A44, capacity]
  {
    hide Encoded, Slots, Live, MissedTokens, Evictable, Assigned, CurrentSlot;
    StepOrdered(row, step.id, step.q);
    PlanDecodes(Claim(row, step.id), step.q, p);
  }

  // ----- current tokens

  /** The slot of logical row i's current token, counted over all physical rows. */
  function CurrentToken(rows: seq<Row>, reqs: seq<Request>, maxToken: int, capacity: int, i: nat): int
    requires i < |reqs| <= |rows|
  {
    var p := Physical(rows, reqs)[i];
    p * capacity + PlanOf(rows[p], StepOf(reqs[i], maxToken)).currentSlot
  }

  /** Where the current token of logical row i is written: inside its own physical row, in the
      slot that holds the token afterwards or in the reserved last slot, which no order lists. */
  lemma CurrentTokenPlace(rows: seq<Row>, reqs: seq<Request>, maxToken: int, capacity: nat, i: nat)
    requires i < |reqs| <= |rows| && capacity >= 1
    requires forall p :: 0 <= p < |rows| ==> Ordered(rows[p]) && |rows[p].tokens| == capacity - 1
    ensures var p := Physical(rows, reqs)[i];
            var slot, row' := CurrentToken(rows, reqs, maxToken, capacity, i) - p * capacity,
                NextRows(rows, reqs, maxToken)[p];
            && 0 <= slot < capacity && |row'.tokens| == capacity - 1
            && (slot < capacity - 1 ==> row'.tokens[slot] == Newest(reqs[i], maxToken))
            && (slot == capacity - 1 ==> slot !in row'.order)
  {
    var p := Physical(rows, reqs)[i];
    var step := StepOf(reqs[i], maxToken);
    ServingIs(Physical(rows, reqs), i);
    StepOrdered(rows[p], step.id, step.q);
    CurrentSlotHolds(Claim(rows[p], step.id), step.q);
    hide CurrentSlot, NextTokens, NextOrder;
  }

  /** Different logical rows write their current tokens to different places, all of which fit int32. */
  lemma CurrentTokensDistinct(rows: seq<Row>, reqs: seq<Request>, maxToken: int, capacity: nat, i: nat, j: nat)
    requires i < j < |reqs| <= |rows| <= INT16_MAX && 1 <= capacity <= INT16_MAX
    requires forall p :: 0 <= p < |rows| ==> Ordered(rows[p]) && |rows[p].tokens| == capacity - 1
    ensures CurrentToken(rows, reqs, maxToken, capacity, i) != CurrentToken(rows, reqs, maxToken, capacity, j)
    ensures 0 <= CurrentToken(rows, reqs, maxToken, capacity, i) < 0x8000_0000
  {
    CurrentTokenPlace(rows, reqs, maxToken, capacity, i);
    CurrentTokenPlace(rows, reqs, maxToken, capacity, j);
    hide NextRows, CurrentToken, Physical, Ordered;
    var p, r := Physical(rows, reqs)[i], Physical(rows, reqs)[j];
    CellsDistinct(p, CurrentToken(rows, reqs, maxToken, capacity, i) - p * capacity,
                  r, CurrentToken(rows, reqs, maxToken, capacity, j) - r * capacity, capacity);
  }

  lemma CellsDistinct(p: nat, a: int, r: nat, b: int, capacity: nat)
    requires p != r && p < INT16_MAX && 0 <= a < capacity <= INT16_MAX && 0 <= b < capacity
    ensures p * capacity + a != r * capacity + b
    ensures 0 <= p * capacity + a < 0x8000_0000
  {
    if p < r { RowMajorOrder(p, a, r, b, capacity); } else { RowMajorOrder(r, b, p, a, capacity); }
    RowMajorOrder(p, a, INT16_MAX, 0, capacity);
    assert p * capacity >= 0;
  }
}
