/** Coherence over runs of batches: many requests, each with a host pool of its own, sharing the
    physical rows.

    In every batch each logical row's plan is carried out on the device memory of its physical row.
    Between two batches that contain a request its pool may change, but only from the later stable
    prefix length onwards.  Then each plan reads the present data of its own request. */
module BatchCoherence {
  import opened Lists
  import opened Resident
  import opened ResidentLaws
  import opened ResidentRuns
  import opened ResidentCoherence
  import opened RowAssignment
  import opened RowStep
  import opened RequestLaws
  import opened Batch

  /** A batch and the pool of every request at that time. */
  datatype BatchTurn = BatchTurn(reqs: seq<Request>, pools: int -> Pool)

  /** The physical rows and the device memory of their slots. */
  datatype Memory = Memory(rows: seq<Row>, device: seq<seq<Data>>)

  /** The device memory of physical row p once the plan that works on it has been carried out. */
  function DeviceAfter(m: Memory, turn: BatchTurn, maxToken: int, p: nat): seq<Data>
    requires |turn.reqs| <= |m.rows| == |m.device| && p < |m.rows|
  {
    var i := Serving(Physical(m.rows, turn.reqs), p);
    if i < 0 then m.device[p]
    else
      var step := StepOf(turn.reqs[i], maxToken);
      Execute(m.device[p], PlanOf(m.rows[p], step), step.q, turn.pools(step.id), |step.q.topk|)
  }

  function NextMemory(m: Memory, turn: BatchTurn, maxToken: int): Memory
    requires |turn.reqs| <= |m.rows| == |m.device|
  {
    Memory(NextRows(m.rows, turn.reqs, maxToken),
           seq(|m.rows|, p requires 0 <= p < |m.rows| => DeviceAfter(m, turn, maxToken, p)))
  }

  ghost predicate IsBatchRun(states: seq<Memory>, turns: seq<BatchTurn>, maxToken: int) {
    && |states| == |turns| + 1
    && forall k :: 0 <= k < |turns| ==>
         && |turns[k].reqs| <= |states[k].rows| == |states[k].device|
         && states[k + 1] == NextMemory(states[k], turns[k], maxToken)
  }

  /** Request id is in none of the batches strictly between j and k. */
  ghost predicate Quiet(turns: seq<BatchTurn>, id: int, j: int, k: int) {
    forall m, i :: j < m < k && 0 <= m < |turns| && 0 <= i < |turns[m].reqs| ==> turns[m].reqs[i].id != id
  }

  ghost predicate SameBelow(a: Pool, b: Pool, n: int) { forall t :: 0 <= t < n ==> a(t) == b(t) }

  /** Since the last batch with a request, the host changed its data past the stable prefix only. */
  ghost predicate HostLegal(turns: seq<BatchTurn>, maxToken: int) {
    forall j, k, i, l :: 0 <= j < k < |turns| && 0 <= i < |turns[j].reqs| && 0 <= l < |turns[k].reqs|
                         && turns[j].reqs[i].id == turns[k].reqs[l].id && Quiet(turns, turns[k].reqs[l].id, j, k) ==>
      SameBelow(turns[k].pools(turns[k].reqs[l].id), turns[j].pools(turns[k].reqs[l].id),
                Min(turns[k].reqs[l].stablePrefix, maxToken))
  }

  /** No visible token is selected twice. */
  ghost predicate SelectsOnce(req: Request, maxToken: int) {
    forall i, j :: 0 <= i < j < |req.topk| && Visible(req, maxToken, req.topk[i]) ==> req.topk[i] != req.topk[j]
  }

  lemma SelectsDistinct(req: Request, maxToken: int)
    requires SelectsOnce(req, maxToken)
    ensures Distinct(QueryOf(req, maxToken))
  {
    forall i | 0 <= i < |req.topk|
      ensures Shown(QueryOf(req, maxToken), req.topk[i]) <==> Visible(req, maxToken, req.topk[i])
    {
      BoundsOf(req, maxToken, req.topk[i]);
    }
    hide Shown, QueryOf, Visible;
  }

  /** Distinct requests with distinct selections. */
  ghost predicate TurnLegal(turn: BatchTurn, maxToken: int) {
    && NoDup(Ids(turn.reqs))
    && forall i :: 0 <= i < |turn.reqs| ==> turn.reqs[i].id != EMPTY && SelectsOnce(turn.reqs[i], maxToken)
  }

  ghost predicate Legal(turns: seq<BatchTurn>, maxToken: int) {
    HostLegal(turns, maxToken) && forall k :: 0 <= k < |turns| ==> TurnLegal(turns[k], maxToken)
  }

  ghost predicate Blank(row: Row) { forall s :: 0 <= s < |row.tokens| ==> row.tokens[s] < 0 }

  /** Batch j is the last before batch k that has the owner of the row, and the device agrees with
      the owner's pool of that time. */
  ghost predicate AgreesSince(turns: seq<BatchTurn>, k: int, row: Row, device: seq<Data>, j: int, i: int) {
    && 0 <= j < k <= |turns| && 0 <= i < |turns[j].reqs| && turns[j].reqs[i].id == row.owner
    && Quiet(turns, row.owner, j, k) && Coherent(device, row.tokens, turns[j].pools(row.owner))
  }

  ghost predicate RowGood(turns: seq<BatchTurn>, k: int, row: Row, device: seq<Data>, maxToken: int) {
    && RowValid(row, maxToken) && |device| == |row.tokens| + 1
    && (Blank(row) || exists j, i :: AgreesSince(turns, k, row, device, j, i))
  }

  ghost predicate Good(turns: seq<BatchTurn>, k: int, m: Memory, maxToken: int) {
    && |m.rows| == |m.device| && OneRowEach(m.rows)
    && forall p :: 0 <= p < |m.rows| ==> RowGood(turns, k, m.rows[p], m.device[p], maxToken)
  }

  /** A row that a request of batch k works on is coherent with that request's present pool afterwards. */
  lemma ServedCoherent(turns: seq<BatchTurn>, k: nat, row: Row, device: seq<Data>, i: nat, maxToken: int)
    requires Legal(turns, maxToken) && k < |turns| && i < |turns[k].reqs| && RowGood(turns, k, row, device, maxToken)
    ensures var step := StepOf(turns[k].reqs[i], maxToken);
            Coherent(Execute(device, PlanOf(row, step), step.q, turns[k].pools(step.id), |step.q.topk|),
                     RowAfter(row, step).tokens,
                     turns[k].pools(step.id))
  {
    hide NextRow, PlanFor, Execute, RowValid, Distinct;
    var step := StepOf(turns[k].reqs[i], maxToken);
    var pool := turns[k].pools(step.id);
    assert TurnLegal(turns[k], maxToken);
    SelectsDistinct(turns[k].reqs[i], maxToken);
    if row.owner == step.id && !Blank(row) {
      var j, l :| AgreesSince(turns, k, row, device, j, l);
      assert SameBelow(pool, turns[j].pools(step.id), step.q.stable);
      TurnCoherent(row, device, step.id, step.q, turns[j].pools(step.id), pool);
    } else {
      TurnCoherent(row, device, step.id, step.q, pool, pool);
    }
  }

  lemma ServedGood(turns: seq<BatchTurn>, k: nat, row: Row, device: seq<Data>, i: nat, maxToken: int)
    requires Legal(turns, maxToken) && k < |turns| && i < |turns[k].reqs| && RowGood(turns, k, row, device, maxToken)
    ensures var step := StepOf(turns[k].reqs[i], maxToken);
            RowGood(turns, k + 1, RowAfter(row, step),
                    Execute(device, PlanOf(row, step), step.q, turns[k].pools(step.id), |step.q.topk|), maxToken)
  {
    ServedCoherent(turns, k, row, device, i, maxToken);
    var step := StepOf(turns[k].reqs[i], maxToken);
    assert TurnLegal(turns[k], maxToken);
    SelectsDistinct(turns[k].reqs[i], maxToken);
    StepKeepsRow(row, step.id, step.q);
    hide NextTokens, NextOrder, PlanFor, Execute, Coherent, RowValid;
    assert AgreesSince(turns, k + 1, RowAfter(row, step),
                       Execute(device, PlanOf(row, step), step.q, turns[k].pools(step.id), |step.q.topk|), k, i);
  }

  /** A row nobody works on in batch k: its owner is not in that batch. */
  lemma RestingGood(turns: seq<BatchTurn>, k: nat, row: Row, device: seq<Data>, maxToken: int)
    requires k < |turns| && RowGood(turns, k, row, device, maxToken)
    requires forall i :: 0 <= i < |turns[k].reqs| ==> turns[k].reqs[i].id != row.owner
    ensures RowGood(turns, k + 1, row, device, maxToken)
  {
    hide RowValid, Coherent;
    if !Blank(row) {
      var j, i :| AgreesSince(turns, k, row, device, j, i);
      assert AgreesSince(turns, k + 1, row, device, j, i);
    }
  }

  lemma BatchGood(turns: seq<BatchTurn>, k: nat, m: Memory, maxToken: int)
    requires Legal(turns, maxToken) && k < |turns| && Good(turns, k, m, maxToken) && |turns[k].reqs| <= |m.rows|
    ensures Good(turns, k + 1, NextMemory(m, turns[k], maxToken), maxToken)
  {
    hide RowGood, Physical, PlanOf, RowAfter, Execute, NextRows, StepOf;
    assert TurnLegal(turns[k], maxToken);
    BatchKeepsOwners(m.rows, turns[k].reqs, maxToken);
    var next := NextMemory(m, turns[k], maxToken);
    forall p | 0 <= p < |m.rows| ensures RowGood(turns, k + 1, next.rows[p], next.device[p], maxToken) {
      NextRowsAt(m.rows, turns[k].reqs, maxToken, p);
      var i := Serving(Physical(m.rows, turns[k].reqs), p);
      if i >= 0 {
        ServedGood(turns, k, m.rows[p], m.device[p], i, maxToken);
        assert StepOf(turns[k].reqs[i], maxToken).id == turns[k].reqs[i].id by { StepId(turns[k].reqs[i], maxToken); }
      } else {
        RestingGood(turns, k, m.rows[p], m.device[p], maxToken);
      }
    }
  }

  lemma StepId(req: Request, maxToken: int)
    ensures StepOf(req, maxToken).id == req.id
  {
  }

  /** All rows empty, and no request on two of them. */
  ghost predicate FreshStart(m: Memory, maxToken: int) {
    && |m.rows| == |m.device| && OneRowEach(m.rows)
    && forall p :: 0 <= p < |m.rows| ==>
         RowValid(m.rows[p], maxToken) && |m.device[p]| == |m.rows[p].tokens| + 1 && Blank(m.rows[p])
  }

  /** In every run of batches every row agrees with the pool its owner had when it last ran. */
  lemma {:induction false} BatchRunGood(states: seq<Memory>, turns: seq<BatchTurn>, maxToken: int, k: nat)
    requires IsBatchRun(states, turns, maxToken) && Legal(turns, maxToken) && FreshStart(states[0], maxToken)
             && k < |states|
    ensures Good(turns, k, states[k], maxToken)
  {
    hide Legal, NextMemory;
    if k == 0 {
      hide RowValid;
    } else {
      BatchRunGood(states, turns, maxToken, k - 1);
      assert states[k] == NextMemory(states[k - 1], turns[k - 1], maxToken);
      BatchGood(turns, k - 1, states[k - 1], maxToken);
    }
  }

  /** In every run of batches, whatever slot the plan of any logical row hands to the attention
      operator holds the present data of that row's own request; and a visible position has a slot,
      unless the request selects more visible tokens than its row has slots. */
  lemma BatchReadsPool(states: seq<Memory>, turns: seq<BatchTurn>, maxToken: int, k: nat, i: nat, pos: nat)
    requires IsBatchRun(states, turns, maxToken) && Legal(turns, maxToken) && FreshStart(states[0], maxToken)
    requires k < |turns| && i < |turns[k].reqs| <= |states[k].rows| && pos < |turns[k].reqs[i].topk|
    ensures var req, p := turns[k].reqs[i], Physical(states[k].rows, turns[k].reqs)[i];
            var slot := PlanOf(states[k].rows[p], StepOf(req, maxToken)).slots[pos];
            && p < |states[k + 1].device|
            && (slot < 0 || (slot < |states[k + 1].device[p]|
                             && states[k + 1].device[p][slot] == turns[k].pools(req.id)(req.topk[pos])))
            && (slot >= 0 ==> Visible(req, maxToken, req.topk[pos]))
            && (Visible(req, maxToken, req.topk[pos]) && |VisiblePositions(req, maxToken)| <= |states[k].rows[p].tokens|
                ==> slot >= 0)
  {
    var m, req := states[k], turns[k].reqs[i];
    var p, step := Physical(m.rows, turns[k].reqs)[i], StepOf(req, maxToken);
    BatchRunGood(states, turns, maxToken, k);
    ServingIs(Physical(m.rows, turns[k].reqs), i);
    hide Legal, Physical, Execute;
    assert states[k + 1] == NextMemory(m, turns[k], maxToken);
    ServedCoherent(turns, k, m.rows[p], m.device[p], i, maxToken);
    SlotOfPlan(m.rows[p], step, pos);
    PlanAnswers(m.rows[p], req, maxToken, pos);
    AllServed(m.rows[p], req, maxToken);
    assert Visible(req, maxToken, req.topk[pos]) ==> pos in VisiblePositions(req, maxToken);
  }

  /** The slot of a position holds its token after the step. */
  lemma SlotOfPlan(row: Row, step: Step, pos: nat)
    requires Ordered(row) && pos < |step.q.topk|
    ensures var slot := PlanOf(row, step).slots[pos];
            slot < 0 || (slot < |RowAfter(row, step).tokens| && RowAfter(row, step).tokens[slot]
                         == step.q.topk[pos] >= 0)
  {
    hide Slots, NextTokens, Encoded, CurrentSlot, NextOrder;
    StepOrdered(row, step.id, step.q);
    if PlanOf(row, step).slots[pos] >= 0 { SlotHoldsToken(Claim(row, step.id), step.q, pos); }
  }
}
