/** The row agrees with what it caches.

    The host pool holds the data of every token of a request.  A plan is carried out on the
    device: the current token's data is written to the current-token slot, and every negative
    code makes the attention operator copy one token from the pool into its slot.  Between two
    steps of a request the pool may change, but only from the stable prefix length onwards.
    Under these rules each slot handed out holds the pool's present data of its token. */
module ResidentCoherence {
  import opened Resident
  import opened ResidentLaws
  import opened ResidentRuns

  /** What is cached, one number standing for the bytes of a token. */
  type Data = int

  type Pool = int -> Data

  function Write(device: seq<Data>, s: int, value: Data): (d: seq<Data>)
    ensures |d| == |device|
  {
    if 0 <= s < |device| then device[s := value] else device
  }

  /** The device row after the current token was written and the first k codes were executed. */
  function Execute(device: seq<Data>, plan: Plan, q: Query, pool: Pool, k: nat): (d: seq<Data>)
    requires k <= |q.topk| && k <= |plan.encoded|
    ensures |d| == |device|
  {
    if k == 0 then Write(device, plan.currentSlot, pool(q.visible - 1))
    else
      var d := Execute(device, plan, q, pool, k - 1);
      if plan.encoded[k - 1] < 0 then Write(d, -plan.encoded[k - 1] - 1, pool(q.topk[k - 1])) else d
  }

  lemma {:induction false} ExecuteElsewhere(device: seq<Data>, plan: Plan, q: Query, pool: Pool, k: nat, s: int)
    requires k <= |q.topk| == |plan.encoded| && 0 <= s < |device|
    requires forall p :: 0 <= p < k ==> plan.encoded[p] != -(s + 1)
    ensures Execute(device, plan, q, pool, k)[s] == if s == plan.currentSlot then pool(q.visible - 1) else device[s]
  {
    if k > 0 { ExecuteElsewhere(device, plan, q, pool, k - 1, s); }
  }

  lemma {:induction false} ExecuteCopy(device: seq<Data>, plan: Plan, q: Query, pool: Pool, k: nat, p: int)
    requires 0 <= p < k <= |q.topk| == |plan.encoded| && -|device| <= plan.encoded[p] < 0
    requires forall r :: p < r < k ==> plan.encoded[r] != plan.encoded[p]
    ensures Execute(device, plan, q, pool, k)[-plan.encoded[p] - 1] == pool(q.topk[p])
  {
    if k > p + 1 { ExecuteCopy(device, plan, q, pool, k - 1, p); }
  }

  /** A slot with one writer ends up with that writer's token, copied or produced on the device. */
  lemma WriterWins(device: seq<Data>, plan: Plan, q: Query, pool: Pool, p: int, s: int)
    requires |plan.encoded| == |q.topk| && 0 <= p < |q.topk| && 0 <= s < |device|
    requires plan.encoded[p] == MissCode(q, q.topk[p], s)
    requires IsCurrent(q, q.topk[p]) ==> plan.currentSlot == s
    requires forall r :: 0 <= r < |q.topk| && r != p ==> plan.encoded[r] != -(s + 1)
    ensures Execute(device, plan, q, pool, |q.topk|)[s] == pool(q.topk[p])
  {
    if IsCurrent(q, q.topk[p]) {
      ExecuteElsewhere(device, plan, q, pool, |q.topk|, s);
    } else {
      ExecuteCopy(device, plan, q, pool, |q.topk|, p);
    }
  }

  /** Every resident token's slot holds the pool's data for it. */
  ghost predicate Coherent(device: seq<Data>, tokens: seq<int>, pool: Pool) {
    |device| == |tokens| + 1 && forall s :: 0 <= s < |tokens| && tokens[s] >= 0 ==> device[s] == pool(tokens[s])
  }

  /** Exactly one code copies into a slot, unless the slot keeps its token or takes the current one. */
  lemma OneWriter(row: Row, q: Query, p: int, r: int)
    requires Ordered(row) && 0 <= p < |q.topk| && 0 <= r < |q.topk| && p != r
    requires Encoded(row, q)[p] != 0 && Encoded(row, q)[r] != 0
    ensures Encoded(row, q)[p] != Encoded(row, q)[r] && Encoded(row, q)[p] != -Encoded(row, q)[r]
  {
    PlanDecodes(row, q, p);
    PlanDecodes(row, q, r);
    if p < r { SlotsDistinct(row, q, p, r); } else { SlotsDistinct(row, q, r, p); }
  }

  /** An assigned miss is the only writer of its slot. */
  lemma PlacedCode(row: Row, q: Query, i: int)
    requires Ordered(row) && Distinct(q) && 0 <= i < Assigned(row, q)
    ensures var p, s := Misses(row, q)[i], Evictable(row, q)[i];
            && 0 <= p < |q.topk| && 0 <= s < |row.tokens|
            && MissedTokens(row, q)[i] == q.topk[p] && Encoded(row, q)[p] == MissCode(q, q.topk[p], s)
            && (IsCurrent(q, q.topk[p]) ==> CurrentSlot(row, q) == s)
            && forall r :: 0 <= r < |q.topk| && r != p ==> Encoded(row, q)[r] != -(s + 1)
  {
    hide Live, NextTokens, Slots, Evictable, Misses, Assigned, Located, CurrentSlot;
    var p, s := Misses(row, q)[i], Evictable(row, q)[i];
    Tables(row, q);
    Positions(row, q);
    forall r | 0 <= r < |q.topk| && r != p ensures Encoded(row, q)[r] != -(s + 1) {
      if Encoded(row, q)[r] != 0 { OneWriter(row, q, p, r); }
    }
    CurrentSlotHolds(row, q);
  }

  lemma PlacedCoherent(row: Row, q: Query, device: seq<Data>, pool: Pool, i: int)
    requires Ordered(row) && Distinct(q) && |device| == |row.tokens| + 1 && 0 <= i < Assigned(row, q)
    ensures 0 <= Evictable(row, q)[i] < |row.tokens|
    ensures Execute(device, PlanFor(row, row.owner, q), q, pool, |q.topk|)[Evictable(row, q)[i]]
            == pool(MissedTokens(row, q)[i])
  {
    hide Live, Encoded, CurrentSlot, Evictable, Misses, Assigned, MissedTokens, Execute;
    PlacedCode(row, q, i);
    WriterWins(device, PlanFor(row, row.owner, q), q, pool, Misses(row, q)[i], Evictable(row, q)[i]);
  }

  /** No code copies into a slot that keeps its token. */
  lemma KeptUnwritten(row: Row, q: Query, s: int, p: int)
    requires Ordered(row) && 0 <= s < |row.tokens| && 0 <= p < |q.topk|
    requires NextTokens(row, q)[s] == Live(row, q)[s]
    ensures Encoded(row, q)[p] != -(s + 1)
  {
    PlanDecodes(row, q, p);
    if Slots(row, q)[p] >= 0 { SlotHoldsToken(row, q, p); }
  }

  lemma KeptCoherent(row: Row, q: Query, device: seq<Data>, pool: Pool, s: int)
    requires Ordered(row) && Coherent(device, Live(row, q), pool)
    requires 0 <= s < |row.tokens| && !Evicts(row, q, s) && NextTokens(row, q)[s] >= 0
    ensures Execute(device, PlanFor(row, row.owner, q), q, pool, |q.topk|)[s] == pool(NextTokens(row, q)[s])
  {
    hide Live, NextTokens, Encoded, Slots, CurrentSlot, Execute, Evictable, Assigned, Misses;
    var plan := PlanFor(row, row.owner, q);
    assert NextTokens(row, q)[s] == Live(row, q)[s] by { Tables(row, q); }
    assert s == plan.currentSlot ==> NextTokens(row, q)[s] == q.visible - 1 by { CurrentSlotHolds(row, q); }
    forall p | 0 <= p < |q.topk| ensures plan.encoded[p] != -(s + 1) { KeptUnwritten(row, q, s, p); }
    ExecuteElsewhere(device, plan, q, pool, |q.topk|, s);
  }

  /** One step restores coherence with the pool of that step. */
  lemma StepCoherent(row: Row, q: Query, device: seq<Data>, pool: Pool)
    requires Ordered(row) && Distinct(q) && Coherent(device, Live(row, q), pool)
    ensures Coherent(Execute(device, PlanFor(row, row.owner, q), q, pool, |q.topk|), NextTokens(row, q), pool)
  {
    hide Live, NextTokens, Evictable, Assigned, PlanFor, Execute, MissedTokens;
    var after := Execute(device, PlanFor(row, row.owner, q), q, pool, |q.topk|);
    forall s | 0 <= s < |row.tokens| && NextTokens(row, q)[s] >= 0
      ensures after[s] == pool(NextTokens(row, q)[s])
    {
      TokenOrigin(row, q, s);
      if Places(row, q, NextTokens(row, q)[s], s) {
        var i :| 0 <= i < Assigned(row, q) && Evictable(row, q)[i] == s
            && MissedTokens(row, q)[i] == NextTokens(row, q)[s];
        PlacedCoherent(row, q, device, pool, i);
      } else {
        KeptCoherent(row, q, device, pool, s);
      }
    }
  }

  // ----- over runs

  datatype Turn = Turn(step: Step, pool: Pool)

  /** The row and the device memory of its slots, the reserved one last. */
  datatype State = State(row: Row, device: seq<Data>)

  function NextState(state: State, turn: Turn): State {
    var id, q := turn.step.id, turn.step.q;
    State(NextRow(state.row, id, q), Execute(state.device, PlanFor(state.row, id, q), q, turn.pool, |q.topk|))
  }

  /** The states that a sequence of turns passes through. */
  ghost predicate IsRun(states: seq<State>, turns: seq<Turn>) {
    |states| == |turns| + 1 && forall k :: 0 <= k < |turns| ==> states[k + 1] == NextState(states[k], turns[k])
  }

  /** Below the new stable prefix the data of a request did not change. */
  ghost predicate Agrees(before: Turn, after: Turn) {
    before.step.id == after.step.id ==>
      forall t :: 0 <= t < after.step.q.stable ==> after.pool(t) == before.pool(t)
  }

  /** Distinct queries over one token table, and a host that changes only the suffix between steps. */
  ghost predicate Legal(turns: seq<Turn>, maxToken: int) {
    && (forall k :: 0 <= k < |turns| ==> Distinct(turns[k].step.q) && turns[k].step.q.maxToken == maxToken)
    && forall j, k :: 0 <= j < |turns| && j + 1 == k < |turns| ==> Agrees(turns[j], turns[k])
  }

  ghost predicate StateValid(state: State, maxToken: int) {
    RowValid(state.row, maxToken) && |state.device| == |state.row.tokens| + 1
  }

  /** Coherence survives the host's changes: what is still live is still right. */
  lemma LiveCoherent(row: Row, device: seq<Data>, id: int, q: Query, before: Pool, pool: Pool)
    requires RowValid(row, q.maxToken)
    requires row.owner == id ==> Coherent(device, row.tokens, before)
    requires row.owner == id ==> forall t :: 0 <= t < q.stable ==> pool(t) == before(t)
    requires |device| == |row.tokens| + 1
    ensures Coherent(device, Live(Claim(row, id), q), pool)
  {
    forall s | 0 <= s < |row.tokens| && Live(Claim(row, id), q)[s] >= 0
      ensures device[s] == pool(Live(Claim(row, id), q)[s])
    {
      SurvivorsStable(row, id, q, Live(Claim(row, id), q)[s], s);
    }
  }

  /** A step of any request, on any valid row, leaves the device coherent with its pool. */
  lemma TurnCoherent(row: Row, device: seq<Data>, id: int, q: Query, before: Pool, pool: Pool)
    requires RowValid(row, q.maxToken) && Distinct(q) && |device| == |row.tokens| + 1
    requires row.owner == id ==> Coherent(device, row.tokens, before)
    requires row.owner == id ==> forall t :: 0 <= t < q.stable ==> pool(t) == before(t)
    ensures Coherent(Execute(device, PlanFor(row, id, q), q, pool, |q.topk|), NextRow(row, id, q).tokens, pool)
  {
    var r := Claim(row, id);
    LiveCoherent(row, device, id, q, before, pool);
    StepOrdered(row, id, q);
    assert PlanFor(r, r.owner, q) == PlanFor(row, id, q);
    StepCoherent(r, q, device, pool);
  }

  lemma {:induction false} StatesValid(states: seq<State>, turns: seq<Turn>, maxToken: int, k: nat)
    requires IsRun(states, turns) && Legal(turns, maxToken) && StateValid(states[0], maxToken) && k <= |turns|
    ensures StateValid(states[k], maxToken)
    ensures k > 0 ==> states[k].row.owner == turns[k - 1].step.id
  {
    if k > 0 {
      StatesValid(states, turns, maxToken, k - 1);
      assert states[k] == NextState(states[k - 1], turns[k - 1]);
      StepKeepsRow(states[k - 1].row, turns[k - 1].step.id, turns[k - 1].step.q);
    }
  }

  /** In every run from an empty row, the device agrees with the pool of the step just made. */
  lemma {:induction false} RunCoherent(states: seq<State>, turns: seq<Turn>, maxToken: int, k: nat)
    requires IsRun(states, turns) && Legal(turns, maxToken) && StateValid(states[0], maxToken) && k < |turns|
    requires forall s :: 0 <= s < |states[0].row.tokens| ==> states[0].row.tokens[s] < 0
    ensures Coherent(states[k + 1].device, states[k + 1].row.tokens, turns[k].pool)
  {
    hide NextRow, PlanFor, Execute;
    var st, step := states[k], turns[k].step;
    StatesValid(states, turns, maxToken, k);
    assert states[k + 1] == NextState(st, turns[k]);
    if k == 0 {
      TurnCoherent(st.row, st.device, step.id, step.q, turns[0].pool, turns[0].pool);
    } else {
      RunCoherent(states, turns, maxToken, k - 1);
      assert Agrees(turns[k - 1], turns[k]);
      TurnCoherent(st.row, st.device, step.id, step.q, turns[k - 1].pool, turns[k].pool);
    }
  }

  /** Whatever slot a plan hands to the attention operator holds the pool's present data. */
  lemma AttentionReadsPool(states: seq<State>, turns: seq<Turn>, maxToken: int, k: nat, p: int)
    requires IsRun(states, turns) && Legal(turns, maxToken) && StateValid(states[0], maxToken) && k < |turns|
    requires forall s :: 0 <= s < |states[0].row.tokens| ==> states[0].row.tokens[s] < 0
    requires 0 <= p < |turns[k].step.q.topk|
    ensures var slot := PlanFor(states[k].row, turns[k].step.id, turns[k].step.q).slots[p];
            slot < 0 || (slot < |states[k + 1].device| && states[k + 1].device[slot]
                         == turns[k].pool(turns[k].step.q.topk[p]))
  {
    var st, id, q := states[k], turns[k].step.id, turns[k].step.q;
    StatesValid(states, turns, maxToken, k);
    RunCoherent(states, turns, maxToken, k);
    assert states[k + 1] == NextState(st, turns[k]);
    StepOrdered(st.row, id, q);
    if PlanFor(st.row, id, q).slots[p] >= 0 { SlotHoldsToken(Claim(st.row, id), q, p); }
  }
}
