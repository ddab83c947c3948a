/** Safety over whole runs of one row: any number of steps, any change of owner. */
module ResidentRuns {
  import opened Lists
  import opened Resident
  import opened ResidentLaws

  datatype Step = Step(id: int, q: Query)

  function Run(row: Row, steps: seq<Step>): (r: Row)
    ensures |r.tokens| == |row.tokens|
  {
    if steps == [] then row
    else
      var last := steps[|steps| - 1];
      NextRow(Run(row, steps[..|steps| - 1]), last.id, last.q)
  }

  /** The row step k works on: what the earlier steps left, emptied if the owner changed. */
  function RowAt(row: Row, steps: seq<Step>, k: nat): (r: Row)
    requires k < |steps|
    ensures |r.tokens| == |row.tokens|
  {
    Claim(Run(row, steps[..k]), steps[k].id)
  }

  lemma RunStep(row: Row, steps: seq<Step>, k: nat)
    requires k < |steps|
    ensures Run(row, steps[..k + 1]) == NextRow(Run(row, steps[..k]), steps[k].id, steps[k].q)
    ensures Run(row, steps[..k + 1]).tokens == NextTokens(RowAt(row, steps, k), steps[k].q)
  {
    assert steps[..k + 1][..k] == steps[..k];
  }

  ghost predicate SameTable(steps: seq<Step>, maxToken: int) {
    forall k :: 0 <= k < |steps| ==> steps[k].q.maxToken == maxToken
  }

  lemma {:induction false} RunOrdered(row: Row, steps: seq<Step>)
    requires Ordered(row)
    ensures Ordered(Run(row, steps))
  {
    if steps != [] {
      var k := |steps| - 1;
      RunOrdered(row, steps[..k]);
      StepOrdered(Run(row, steps[..k]), steps[k].id, steps[k].q);
    }
  }

  lemma RowAtOrdered(row: Row, steps: seq<Step>, k: nat)
    requires Ordered(row) && k < |steps|
    ensures Ordered(RowAt(row, steps, k))
  {
    RunOrdered(row, steps[..k]);
    StepOrdered(Run(row, steps[..k]), steps[k].id, steps[k].q);
  }

  /** The row invariant holds in every reachable state. */
  lemma {:induction false} RunValid(row: Row, steps: seq<Step>, maxToken: int)
    requires RowValid(row, maxToken) && SameTable(steps, maxToken)
    requires forall k :: 0 <= k < |steps| ==> Distinct(steps[k].q)
    ensures RowValid(Run(row, steps), maxToken)
  {
    if steps != [] {
      var k := |steps| - 1;
      RunValid(row, steps[..k], maxToken);
      StepKeepsRow(Run(row, steps[..k]), steps[k].id, steps[k].q);
    }
  }

  /** Tokens of a reachable row lie in [0, maxToken) or are -1, even if queries repeat tokens. */
  lemma {:induction false} RunTokensValid(row: Row, steps: seq<Step>, maxToken: int)
    requires Ordered(row) && TokensValid(row, maxToken) && SameTable(steps, maxToken)
    ensures TokensValid(Run(row, steps), maxToken)
  {
    if steps != [] {
      var k := |steps| - 1;
      RunTokensValid(row, steps[..k], maxToken);
      RunOrdered(row, steps[..k]);
      StepTokensValid(Run(row, steps[..k]), steps[k].id, steps[k].q);
    }
  }

  // ----- where a hit comes from

  /** Step k gives slot s to the missing token t. */
  ghost predicate PlacedAt(row: Row, steps: seq<Step>, k: int, t: int, s: int) {
    0 <= k < |steps| && Places(RowAt(row, steps, k), steps[k].q, t, s)
  }

  ghost predicate VictimAt(row: Row, steps: seq<Step>, k: int, s: int) {
    0 <= k < |steps| && Evicts(RowAt(row, steps, k), steps[k].q, s)
  }

  ghost predicate HitAt(row: Row, steps: seq<Step>, k: int, t: int, s: int) {
    0 <= k < |steps| && HitsWith(RowAt(row, steps, k), steps[k].q, t, s)
  }

  /** Step k neither resets the row, nor reassigns slot s, nor finds t past the stable prefix. */
  ghost predicate KeptAt(row: Row, steps: seq<Step>, k: int, id: int, t: int, s: int) {
    0 <= k < |steps| && steps[k].id == id && t < steps[k].q.stable && !VictimAt(row, steps, k, s)
  }

  /** `start` held at some j < n and `keep` at every later index below n. */
  ghost predicate Since(start: int -> bool, keep: int -> bool, n: int) {
    exists j :: 0 <= j < n && start(j) && forall k :: j < k < n ==> keep(k)
  }

  lemma SinceExtends(start: int -> bool, keep: int -> bool, n: nat)
    requires start(n) || (Since(start, keep, n) && keep(n))
    ensures Since(start, keep, n + 1)
  {
    if !start(n) {
      var j :| 0 <= j < n && start(j) && forall k :: j < k < n ==> keep(k);
      assert forall k :: j < k < n + 1 ==> keep(k);
    }
  }

  ghost function PlacedBy(row: Row, steps: seq<Step>, id: int, t: int, s: int): int -> bool {
    k => PlacedAt(row, steps, k, t, s) && steps[k].id == id
  }

  ghost function KeptBy(row: Row, steps: seq<Step>, id: int, t: int, s: int): int -> bool {
    k => KeptAt(row, steps, k, id, t, s)
  }

  /** Some step j < n of request id put t in slot s, and every later step below n kept it there. */
  ghost predicate Held(row: Row, steps: seq<Step>, n: int, id: int, t: int, s: int) {
    Since(PlacedBy(row, steps, id, t, s), KeptBy(row, steps, id, t, s), n)
  }

  /** What survives the scan of step k lies below its stable prefix and belongs to its owner. */
  lemma StaleDropped(row: Row, steps: seq<Step>, maxToken: int, k: nat, t: int, s: int)
    requires RowValid(row, maxToken) && SameTable(steps, maxToken) && k < |steps|
    requires t >= 0 && Survives(RowAt(row, steps, k), steps[k].q, t, s)
    ensures 0 <= s < |row.tokens| && Run(row, steps[..k]).tokens[s] == t < steps[k].q.stable
    ensures Run(row, steps[..k]).owner == steps[k].id
  {
    RunOrdered(row, steps[..k]);
    RunTokensValid(row, steps[..k], maxToken);
    SurvivorsStable(Run(row, steps[..k]), steps[k].id, steps[k].q, t, s);
  }

  /** A token resident after step k was placed by it or was already there and kept. */
  lemma PlacedOrKept(row: Row, steps: seq<Step>, k: nat, maxToken: int, t: int, s: int)
    requires RowValid(row, maxToken) && SameTable(steps, maxToken) && k < |steps|
    requires 0 <= s < |row.tokens| && Run(row, steps[..k + 1]).tokens[s] == t >= 0
    ensures Run(row, steps[..k + 1]).owner == steps[k].id
    ensures PlacedAt(row, steps, k, t, s)
            || (KeptAt(row, steps, k, steps[k].id, t, s)
                && Run(row, steps[..k]).tokens[s] == t && Run(row, steps[..k]).owner == steps[k].id)
  {
    RunStep(row, steps, k);
    RowAtOrdered(row, steps, k);
    TokenOrigin(RowAt(row, steps, k), steps[k].q, s);
    if !PlacedAt(row, steps, k, t, s) {
      StaleDropped(row, steps, maxToken, k, t, s);
    }
  }

  /** Every resident token was put in its slot by a miss of the present owner and never left it. */
  lemma {:induction false} ResidentsHeld(row: Row, steps: seq<Step>, n: nat, maxToken: int, t: int, s: int)
    requires RowValid(row, maxToken) && SameTable(steps, maxToken) && n <= |steps|
    requires forall u :: 0 <= u < |row.tokens| ==> row.tokens[u] < 0
    requires 0 <= s < |row.tokens| && Run(row, steps[..n]).tokens[s] == t >= 0
    ensures Held(row, steps, n, Run(row, steps[..n]).owner, t, s)
  {
    if n > 0 {
      var k, id := n - 1, steps[n - 1].id;
      PlacedOrKept(row, steps, k, maxToken, t, s);
      if !PlacedAt(row, steps, k, t, s) {
        ResidentsHeld(row, steps, k, maxToken, t, s);
      }
      SinceExtends(PlacedBy(row, steps, id, t, s), KeptBy(row, steps, id, t, s), k);
    }
  }

  /** A hit for t in slot s always goes back to an earlier miss of the same request that put t in s.
      Since then the row was not reset, s was not reassigned, and t lay below the stable prefix of
      every step that processed the row, this one included. */
  lemma HitProvenance(row: Row, steps: seq<Step>, maxToken: int, k: int, t: int, s: int)
    requires RowValid(row, maxToken) && SameTable(steps, maxToken)
    requires forall u :: 0 <= u < |row.tokens| ==> row.tokens[u] < 0
    requires HitAt(row, steps, k, t, s)
    ensures t < steps[k].q.stable
    ensures Held(row, steps, k, steps[k].id, t, s)
  {
    StaleDropped(row, steps, maxToken, k, t, s);
    ResidentsHeld(row, steps, k, maxToken, t, s);
  }

  // ----- least recently used

  ghost predicate UsedAt(row: Row, steps: seq<Step>, k: int, s: int) {
    0 <= k < |steps| && Uses(RowAt(row, steps, k), steps[k].q, s)
  }

  /** The last step since the row was last reset that hit or filled slot s; -1 if none. */
  ghost function LastUsed(row: Row, steps: seq<Step>, s: int): (k: int)
    ensures -1 <= k < |steps|
    decreases |steps|, 0
  {
    if steps == [] then -1
    else if UsedAt(row, steps, |steps| - 1, s) then |steps| - 1
    else LastUsedBy(row, steps[..|steps| - 1], steps[|steps| - 1].id, s)
  }

  /** The same as seen by a step of request id, which resets the row if it belongs to another. */
  ghost function LastUsedBy(row: Row, steps: seq<Step>, id: int, s: int): (k: int)
    ensures -1 <= k < |steps|
    decreases |steps|, 1
  {
    if Run(row, steps).owner == id then LastUsed(row, steps, s) else -1
  }

  ghost predicate SortedByUse(row: Row, steps: seq<Step>) {
    SortedBy(Run(row, steps).order, s => LastUsed(row, steps, s))
  }

  lemma SortedWhenClaimed(row: Row, steps: seq<Step>, k: nat)
    requires Ordered(row) && k < |steps| && SortedByUse(row, steps[..k])
    ensures SortedBy(RowAt(row, steps, k).order, s => LastUsedBy(row, steps[..k], steps[k].id, s))
  {
  }

  /** In every reachable state the order array lists the slots by their last use. */
  lemma {:induction false} OrderIsLru(row: Row, steps: seq<Step>)
    requires Ordered(row)
    ensures SortedByUse(row, steps)
  {
    if steps != [] {
      var k := |steps| - 1;
      OrderIsLru(row, steps[..k]);
      RowAtOrdered(row, steps, k);
      SortedWhenClaimed(row, steps, k);
      StepSorted(RowAt(row, steps, k), steps[k].q, s => LastUsedBy(row, steps[..k], steps[k].id, s),
                 s => LastUsed(row, steps, s), k);
    }
  }

  /** Every victim was last used no later than any slot that is neither hit nor evicted. */
  lemma VictimsAreOldest(row: Row, steps: seq<Step>, k: int, victim: int, kept: int)
    requires Ordered(row) && 0 <= k < |steps| && VictimAt(row, steps, k, victim)
    requires 0 <= kept < |row.tokens| && !UsedAt(row, steps, k, kept)
    ensures LastUsedBy(row, steps[..k], steps[k].id, victim) <= LastUsedBy(row, steps[..k], steps[k].id, kept)
  {
    OrderIsLru(row, steps[..k]);
    RowAtOrdered(row, steps, k);
    SortedWhenClaimed(row, steps, k);
    VictimsFirst(RowAt(row, steps, k), steps[k].q, s => LastUsedBy(row, steps[..k], steps[k].id, s), victim, kept);
  }

  /** Step k uses slot s, and the row has not changed hands since. */
  ghost predicate UsedSince(row: Row, steps: seq<Step>, k: int, s: int) {
    UsedAt(row, steps, k, s) && forall j :: k < j < |steps| ==> steps[j].id == steps[k].id
  }

  lemma UsedInPrefix(row: Row, steps: seq<Step>, k: int, s: int)
    requires steps != [] && k < |steps| - 1
    ensures UsedAt(row, steps, k, s) <==> UsedAt(row, steps[..|steps| - 1], k, s)
  {
    if 0 <= k { assert steps[..|steps| - 1][..k] == steps[..k]; }
    hide Uses;
  }

  /** The last use of a slot is the last step that used it for the present owner, or none. */
  lemma {:induction false} LastUsedExactly(row: Row, steps: seq<Step>, s: int)
    ensures LastUsed(row, steps, s) >= 0 ==> UsedSince(row, steps, LastUsed(row, steps, s), s)
    ensures forall k :: UsedSince(row, steps, k, s) ==> k <= LastUsed(row, steps, s)
  {
    hide UsedAt, NextRow;
    if steps != [] {
      var n := |steps| - 1;
      var front := steps[..n];
      LastUsedExactly(row, front, s);
      forall k | k < n ensures UsedAt(row, steps, k, s) <==> UsedAt(row, front, k, s) {
        UsedInPrefix(row, steps, k, s);
      }
      if front != [] { OwnerIsLast(row, front); }
      forall k | UsedSince(row, steps, k, s) ensures k <= LastUsed(row, steps, s) {
        assert UsedAt(row, steps, k, s) ==> 0 <= k <= n by { UsedInRange(row, steps, k, s); }
        if k < n { assert UsedSince(row, front, k, s); }
      }
    } else {
      forall k ensures !UsedSince(row, steps, k, s) { if UsedAt(row, steps, k, s) { UsedInRange(row, steps, k, s); } }
    }
  }

  lemma UsedInRange(row: Row, steps: seq<Step>, k: int, s: int)
    requires UsedAt(row, steps, k, s)
    ensures 0 <= k < |steps|
  {
  }

  lemma OwnerIsLast(row: Row, steps: seq<Step>)
    requires steps != []
    ensures Run(row, steps).owner == steps[|steps| - 1].id
  {
  }
}
