/** The planner's row step as it runs: arrays updated in place, with scratch memory that is
    never cleared between steps. */
module RowStep {
  import opened Lists
  import opened Resident

  const EPOCH_RESET_THRESHOLD: int := 0x4000_0000

  const LAYOUT_MARKER: int := 0x5A44

  const INT16_MAX: int := 0x7FFF

  /** A narrowing cast to int16_t. */
  function ToInt16(v: int): int { (v + 0x8000) % 0x1_0000 - 0x8000 }

  /** The cells after the plan, with the three that tell the operator where the row lies. */
  function Control(tail: seq<int>, physicalRow: int, capacity: int): seq<int>
    requires |tail| >= 7
  {
    tail[4 := ToInt16(physicalRow)][5 := LAYOUT_MARKER][6 := ToInt16(capacity)]
  }

  /** The stamp table stands for the set of wanted tokens and their first positions. */
  ghost predicate Stamped(q: Query, mark: seq<int>, position: seq<int>, epoch: int) {
    && |mark| == |position| == q.maxToken
    && forall t :: 0 <= t < q.maxToken ==>
         (mark[t] == epoch <==> Wanted(q, t)) && (Wanted(q, t) ==> position[t] == FirstPosition(q.topk, t))
  }

  /** Scratch memory of one thread: a stamp table over tokens and three slot lists. */
  class Workspace {
    const mark: array<int>
    const position: array<int>
    const slots: array<int>
    const missPositions: array<int>
    var epoch: int

    ghost function Repr(): set<object> { {this, mark, position, slots, missPositions} }

    /** Marks never exceed the epoch, so the next epoch marks nothing yet. */
    ghost predicate Valid(maxToken: int)
      reads this, mark
    {
      && mark != position && mark != slots && mark != missPositions
      && position != slots && position != missPositions && slots != missPositions
      && mark.Length == position.Length == maxToken
      && 0 <= epoch < EPOCH_RESET_THRESHOLD
      && forall t :: 0 <= t < mark.Length ==> mark[t] <= epoch
    }

    constructor (maxToken: nat, topk: nat, capacity: nat)
      ensures Valid(maxToken) && fresh(Repr())
      ensures slots.Length == 3 * capacity && missPositions.Length == topk
    {
      mark := new int[maxToken](_ => 0);
      position := new int[maxToken](_ => -1);
      slots := new int[3 * capacity];
      missPositions := new int[topk];
      epoch := 0;
    }

    /** A new stamp no entry carries, found without clearing the table but once in 2^30 steps. */
    method NextEpoch()
      requires Valid(mark.Length)
      modifies this, mark, position
      ensures Valid(mark.Length) && 1 <= epoch
      ensures forall t :: 0 <= t < mark.Length ==> mark[t] != epoch
      ensures epoch == if old(epoch) + 1 < EPOCH_RESET_THRESHOLD then old(epoch) + 1 else 1
    {
      var base := epoch + 1;
      if base >= EPOCH_RESET_THRESHOLD {
        forall t | 0 <= t < mark.Length { mark[t] := 0; }
        forall t | 0 <= t < position.Length { position[t] := -1; }
        base := 1;
      }
      epoch := base;
    }

    /** Whatever earlier steps left in the table, afterwards it holds exactly this query. */
    method Stamp(q: Query)
      requires Valid(q.maxToken)
      modifies this, mark, position
      ensures Valid(q.maxToken) && Stamped(q, mark[..], position[..], epoch)
    {
      NextEpoch();
      for p := 0 to |q.topk|
        invariant Valid(q.maxToken)
        invariant forall t :: 0 <= t < q.maxToken ==>
                    && (mark[t] == epoch <==> Shown(q, t) && t in q.topk[..p])
                    && (Shown(q, t) && t in q.topk[..p] ==> position[t] == FirstPosition(q.topk, t))
      {
        var token := q.topk[p];
        assert q.topk[..p + 1] == q.topk[..p] + [token];
        if IsToken(q, token) && token < q.visible && mark[token] != epoch {
          mark[token] := epoch;
          position[token] := p;
        }
      }
      assert q.topk[..|q.topk|] == q.topk;
    }
  }

  /** One physical row.  The last slot is reserved and never listed. */
  class PhysicalRow {
    const tokens: array<int>
    const order: array<int>

    ghost function Repr(): set<object> { {tokens, order} }

    ghost predicate Valid(capacity: int) {
      tokens != order && tokens.Length == order.Length == capacity
    }

    /** The row as a value, given the request it belongs to. */
    ghost function View(owner: int): Row
      reads tokens, order
      requires 1 <= tokens.Length == order.Length
    {
      var resident := tokens.Length - 1;
      Row(owner, tokens[..resident], order[..resident])
    }

    constructor (capacity: nat)
      requires capacity >= 1
      ensures Valid(capacity) && fresh(Repr())
      ensures View(-1) == FreshRow(-1, capacity - 1)
    {
      tokens := new int[capacity](_ => -1);
      order := new int[capacity](i => i);
    }

    /** Empty the row for a new request. */
    method Reset()
      requires 1 <= tokens.Length && Valid(tokens.Length)
      modifies tokens, order
      ensures forall id :: View(id) == FreshRow(id, tokens.Length - 1)
      ensures tokens[tokens.Length - 1] == old(tokens[tokens.Length - 1])
      ensures order[order.Length - 1] == old(order[order.Length - 1])
    {
      var resident := tokens.Length - 1;
      forall s | 0 <= s < resident { tokens[s] := -1; }
      for s := 0 to resident
        invariant forall i :: 0 <= i < s ==> order[i] == i
        invariant order[resident] == old(order[resident])
        invariant (forall i :: 0 <= i < resident ==> tokens[i] == -1) && tokens[resident] == old(tokens[resident])
      {
        order[s] := s;
      }
      assert tokens[..resident] == seq(resident, _ => -1) && order[..resident] == Iota(resident);
    }
  }

  /** The plan of one logical row. */
  class PlanRow {
    const slots: array<int>
    const missTokens: array<int>
    const missSlots: array<int>
    const encoded: array<int>
    var missCount: int
    var currentToken: int

    ghost function Repr(): set<object> { {this, slots, missTokens, missSlots, encoded} }

    ghost predicate Valid(topk: int) {
      && slots != missTokens && slots != missSlots && slots != encoded
      && missTokens != missSlots && missTokens != encoded && missSlots != encoded
      && slots.Length == missTokens.Length == missSlots.Length == topk
      && encoded.Length >= topk + 7
    }

    /** The plan as a value; currentToken is the current slot counted over all physical rows. */
    ghost function View(rowStart: int): Plan
      reads this, slots, missTokens, missSlots, encoded
      requires slots.Length <= encoded.Length
    {
      Plan(slots[..], missTokens[..], missSlots[..], missCount, encoded[..slots.Length], currentToken - rowStart)
    }

    constructor (topk: nat, stride: nat)
      requires stride >= topk + 7
      ensures Valid(topk) && encoded.Length == stride && missCount == currentToken == 0
      ensures fresh(slots) && fresh(missTokens) && fresh(missSlots) && fresh(encoded)
    {
      slots := new int[topk];
      missTokens := new int[topk];
      missSlots := new int[topk];
      encoded := new int[stride];
      missCount, currentToken := 0, 0;
    }

    method Clear(physicalRow: int, capacity: int)
      requires Valid(slots.Length)
      modifies this, slots, missTokens, missSlots, encoded
      ensures forall p :: 0 <= p < slots.Length ==>
                slots[p] == -1 && missTokens[p] == -1 && missSlots[p] == -1 && encoded[p] == 0
      ensures encoded[slots.Length..] == Control(old(encoded[slots.Length..]), physicalRow, capacity)
      ensures missCount == 0 && currentToken == old(currentToken)
    {
      var topk := slots.Length;
      forall p | 0 <= p < topk { slots[p] := -1; }
      forall p | 0 <= p < topk { missTokens[p] := -1; }
      forall p | 0 <= p < topk { missSlots[p] := -1; }
      forall p | 0 <= p < topk { encoded[p] := 0; }
      encoded[topk + 4] := ToInt16(physicalRow);
      encoded[topk + 5] := LAYOUT_MARKER;
      encoded[topk + 6] := ToInt16(capacity);
      missCount := 0;
    }
  }

  lemma LocatedStep(order: seq<int>, live: seq<int>, q: Query, k: nat, p: int)
    requires k < |order|
    ensures LocatedIn(order[..k + 1], live, q, p)
            == if IsHit(live, q, order[k]) && FirstPosition(q.topk, live[order[k]]) == p then order[k]
               else LocatedIn(order[..k], live, q, p)
  {
    assert order[..k + 1][..k] == order[..k];
  }

  lemma CurrentStep(order: seq<int>, live: seq<int>, q: Query, k: nat)
    requires k < |order|
    ensures CurrentHit(order[..k + 1], live, q)
            == if IsHit(live, q, order[k]) && IsCurrent(q, live[order[k]]) then order[k]
               else CurrentHit(order[..k], live, q)
  {
    if Wanted(q, q.visible - 1) {
      LocatedStep(order, live, q, k, FirstPosition(q.topk, q.visible - 1));
    }
  }

  /** Visiting slot order[k]: what it does to the tokens. */
  lemma LiveStep(order: seq<int>, q: Query, tokens: seq<int>, k: nat)
    requires k < |order|
    ensures var s, now, next := order[k], LiveIn(order[..k], q, tokens), LiveIn(order[..k + 1], q, tokens);
            if 0 <= s < |tokens|
            then && next == now[s := if IsToken(q, now[s]) && now[s] >= q.stable then -1 else now[s]]
                 && next[s] == LiveIn(order, q, tokens)[s]
            else next == now
  {
    hide IsToken;
    assert order[..k + 1] == order[..k] + [order[k]];
  }

  /** Visiting slot order[k]: what it does to the lists. */
  lemma ScanStep(order: seq<int>, live: seq<int>, q: Query, k: nat)
    requires k < |order|
    ensures var s, before, after := order[k], order[..k], order[..k + 1];
            && Filter(HitTest(live, q), after) == Filter(HitTest(live, q), before)
                + (if IsHit(live, q, s) then [s] else [])
            && Filter(EvictTest(live, q), after)
               == Filter(EvictTest(live, q), before) + (if 0 <= s < |live| && !IsHit(live, q, s) then [s] else [])
            && CurrentHit(after, live, q)
               == (if IsHit(live, q, s) && IsCurrent(q, live[s]) then s else CurrentHit(before, live, q))
            && LocatedTable(after, live, q)
               == if IsHit(live, q, s) then LocatedTable(before, live, q)[FirstPosition(q.topk, live[s]) := s]
                  else LocatedTable(before, live, q)
  {
    FilterStep(HitTest(live, q), order, k);
    FilterStep(EvictTest(live, q), order, k);
    CurrentStep(order, live, q, k);
    hide LocatedIn, Filter, CurrentHit;
    forall p | 0 <= p < |q.topk|
      ensures LocatedTable(order[..k + 1], live, q)[p]
              == if IsHit(live, q, order[k]) && FirstPosition(q.topk, live[order[k]]) == p then order[k]
                 else LocatedTable(order[..k], live, q)[p]
    {
      LocatedStep(order, live, q, k, p);
    }
  }

  lemma NothingScanned(live: seq<int>, q: Query, tokens: seq<int>)
    ensures Filter(HitTest(live, q), []) == [] && Filter(EvictTest(live, q), []) == []
    ensures CurrentHit([], live, q) == |live| && LiveIn([], q, tokens) == tokens
    ensures forall p :: 0 <= p < |q.topk| ==> LocatedTable([], live, q)[p] == -1
  {
  }

  lemma CodesUpdate(table: seq<int>, codes: seq<int>, tail: seq<int>, p: int, slot: int)
    requires 0 <= p < |table| && codes == HitCodes(table) + tail
    ensures codes[p := slot + 1] == HitCodes(table[p := slot]) + tail
  {
  }

  /** Everything the scan has established after k slots of the order. */
  ghost predicate Scanned(r: Row, q: Query, k: int, tokens: seq<int>, work: seq<int>, slots: seq<int>, codes: seq<int>,
                          tail: seq<int>, hits: int, evictable: int, current: int) {
    var live, capacity := Live(r, q), |r.tokens| + 1;
    && 0 <= k <= |r.order| == |r.tokens| && |tokens| == capacity && |work| == 3 * capacity
    && 0 <= hits && 0 <= evictable && hits + evictable <= k
    && tokens[..|r.tokens|] == LiveIn(r.order[..k], q, r.tokens)
    && work[..hits] == Filter(HitTest(live, q), r.order[..k])
    && work[capacity..capacity + evictable] == Filter(EvictTest(live, q), r.order[..k])
    && slots == LocatedTable(r.order[..k], live, q) && codes == HitCodes(slots) + tail
    && current == CurrentHit(r.order[..k], live, q)
  }

  lemma ScanStarts(r: Row, q: Query, tokens: seq<int>, work: seq<int>, slots: seq<int>, codes: seq<int>)
    requires |r.order| == |r.tokens| == |tokens| - 1 && r.tokens == tokens[..|r.tokens|] && |work| == 3 * |tokens|
    requires |slots| == |q.topk| <= |codes| && forall p :: 0 <= p < |q.topk| ==> slots[p] == -1 && codes[p] == 0
    ensures Scanned(r, q, 0, tokens, work, slots, codes, codes[|q.topk|..], 0, 0, |r.tokens|)
  {
    assert r.order[..0] == [];
    NothingScanned(Live(r, q), q, r.tokens);
  }

  /** A slot outside the row changes nothing. */
  lemma SkipSlot(r: Row, q: Query, k: int, tokens: seq<int>, work: seq<int>, slots: seq<int>, codes: seq<int>,
                 tail: seq<int>, hits: int, evictable: int, current: int)
    requires k < |r.order| && Scanned(r, q, k, tokens, work, slots, codes, tail, hits, evictable, current)
    requires 0 <= k && !(0 <= r.order[k] < |tokens| - 1)
    ensures Scanned(r, q, k + 1, tokens, work, slots, codes, tail, hits, evictable, current)
  {
    ScanStep(r.order, Live(r, q), q, k);
    LiveStep(r.order, q, r.tokens, k);
  }

  /** A hit is listed, located and coded. */
  lemma HitSlot(r: Row, q: Query, k: int, tokens: seq<int>, work: seq<int>, slots: seq<int>, codes: seq<int>,
                tail: seq<int>, hits: int, evictable: int, current: int)
    requires 0 <= k < |r.order| && Scanned(r, q, k, tokens, work, slots, codes, tail, hits, evictable, current)
    requires IsHit(Live(r, q), q, r.order[k])
    ensures var s, t := r.order[k], Live(r, q)[r.order[k]];
            var p := FirstPosition(q.topk, t);
            Scanned(r, q, k + 1, tokens[s := t], work[hits := s], slots[p := s], codes[p := s + 1], tail, hits + 1,
                    evictable,
                    if IsCurrent(q, t) then s else current)
  {
    var live, s, capacity := Live(r, q), r.order[k], |tokens|;
    ScanStep(r.order, live, q, k);
    LiveStep(r.order, q, r.tokens, k);
    WindowUpdate(work, 0, hits, hits, s);
    WindowUpdate(work, capacity, capacity + evictable, hits, s);
    CodesUpdate(slots, codes, tail, FirstPosition(q.topk, live[s]), s);
    assert tokens[s := live[s]][..|r.tokens|] == tokens[..|r.tokens|][s := live[s]];
  }

  /** Any other slot of the row is listed as evictable. */
  lemma MissedSlot(r: Row, q: Query, k: int, tokens: seq<int>, work: seq<int>, slots: seq<int>, codes: seq<int>,
                   tail: seq<int>, hits: int, evictable: int, current: int)
    requires 0 <= k < |r.order| && Scanned(r, q, k, tokens, work, slots, codes, tail, hits, evictable, current)
    requires 0 <= r.order[k] < |r.tokens| && !IsHit(Live(r, q), q, r.order[k])
    ensures var s := r.order[k];
            Scanned(r, q, k + 1, tokens[s := Live(r, q)[s]], work[|tokens| + evictable := s], slots, codes, tail, hits,
                    evictable + 1, current)
  {
    var live, s, capacity := Live(r, q), r.order[k], |tokens|;
    ScanStep(r.order, live, q, k);
    LiveStep(r.order, q, r.tokens, k);
    WindowUpdate(work, 0, hits, capacity + evictable, s);
    WindowUpdate(work, capacity, capacity + evictable, capacity + evictable, s);
    assert tokens[s := live[s]][..|r.tokens|] == tokens[..|r.tokens|][s := live[s]];
  }

  /** The token slot order[k] offers when the scan reaches it. */
  lemma LiveWhenVisited(r: Row, q: Query, k: int, tokens: seq<int>, work: seq<int>, slots: seq<int>, codes: seq<int>,
                        tail: seq<int>, hits: int, evictable: int, current: int)
    requires 0 <= k < |r.order| && Scanned(r, q, k, tokens, work, slots, codes, tail, hits, evictable, current)
    requires 0 <= r.order[k] < |tokens| - 1
    ensures |tokens| == |r.tokens| + 1 && |work| == 3 * |tokens| && |slots| == |q.topk| <= |codes|
    ensures 0 <= hits && 0 <= evictable && hits + evictable <= k < |r.tokens|
    ensures var t := tokens[r.order[k]];
            Live(r, q)[r.order[k]] == if IsToken(q, t) && t >= q.stable then -1 else t
  {
    LiveStep(r.order, q, r.tokens, k);
    assert tokens[r.order[k]] == tokens[..|r.tokens|][r.order[k]];
  }

  /** The arrays a row step works on are all different. */
  ghost predicate Apart(row: PhysicalRow, ws: Workspace, out: PlanRow) {
    row.Repr() !! ws.Repr() && row.Repr() !! out.Repr() && ws.Repr() !! out.Repr()
  }

  /** One slot of the scan. */
  method Visit(ghost r: Row, q: Query, ghost k: int, slot: int, tokens: array<int>, mark: array<int>,
               position: array<int>,
               epoch: int, work: array<int>, slots: array<int>, encoded: array<int>, ghost tail: seq<int>,
               hitCount: int, evictableCount: int, currentSlot: int)
    returns (hits: int, evictable: int, current: int)
    requires 0 <= k < |r.order| && slot == r.order[k] && tokens.Length <= INT16_MAX
             && |q.topk| == slots.Length <= encoded.Length
    requires tokens != mark && tokens != position && tokens != work && tokens != slots && tokens != encoded
    requires work != mark && work != position && work != slots && work != encoded && slots != encoded
    requires slots != mark && slots != position && encoded != mark && encoded != position
    requires Stamped(q, mark[..], position[..], epoch)
    requires Scanned(r, q, k, tokens[..], work[..], slots[..], encoded[..], tail, hitCount, evictableCount, currentSlot)
    modifies tokens, work, slots, encoded
    ensures Scanned(r, q, k + 1, tokens[..], work[..], slots[..], encoded[..], tail, hits, evictable, current)
    ensures tokens[tokens.Length - 1] == old(tokens[tokens.Length - 1])
  {
    hide Live, Scanned;
    hits, evictable, current := hitCount, evictableCount, currentSlot;
    var capacity := tokens.Length;
    ghost var t0, w0, s0, e0 := tokens[..], work[..], slots[..], encoded[..];
    if slot < 0 || slot >= capacity - 1 {
      SkipSlot(r, q, k, t0, w0, s0, e0, tail, hits, evictable, current);
      return;
    }
    LiveWhenVisited(r, q, k, t0, w0, s0, e0, tail, hits, evictable, current);
    var token := tokens[slot];
    if IsToken(q, token) && token >= q.stable {
      tokens[slot] := -1;
      token := -1;
    }
    assert tokens[..] == t0[slot := Live(r, q)[slot]];
    if IsToken(q, token) && mark[token] == epoch {
      HitSlot(r, q, k, t0, w0, s0, e0, tail, hits, evictable, current);
      var p := position[token];
      slots[p] := slot;
      if token == q.visible - 1 {
        current := slot;
      }
      encoded[p] := ToInt16(slot + 1);
      work[hits] := slot;
      assert work[..] == w0[hits := slot] && slots[..] == s0[p := slot] && encoded[..] == e0[p := slot + 1];
      hits := hits + 1;
    } else {
      MissedSlot(r, q, k, t0, w0, s0, e0, tail, hits, evictable, current);
      work[capacity + evictable] := slot;
      assert work[..] == w0[capacity + evictable := slot];
      evictable := evictable + 1;
    }
  }

  /** Walk the slots from least to most recently used: drop stale tokens and sort the slots into
      hits and evictable ones. */
  method Scan(ghost r: Row, row: PhysicalRow, q: Query, ws: Workspace, out: PlanRow)
    returns (hitCount: int, evictableCount: int, currentSlot: int)
    requires row.Valid(row.tokens.Length) && 2 <= row.tokens.Length <= INT16_MAX && r == row.View(r.owner)
    requires ws.Valid(q.maxToken) && Stamped(q, ws.mark[..], ws.position[..], ws.epoch)
    requires ws.slots.Length == 3 * row.tokens.Length && out.Valid(|q.topk|) && Apart(row, ws, out)
    requires forall p :: 0 <= p < |q.topk| ==> out.slots[p] == -1 && out.encoded[p] == 0
    modifies row.tokens, ws.slots, out.slots, out.encoded
    ensures Scanned(r, q, |r.order|, row.tokens[..], ws.slots[..], out.slots[..], out.encoded[..],
                    old(out.encoded[|q.topk|..]), hitCount, evictableCount, currentSlot)
    ensures row.tokens[row.tokens.Length - 1] == old(row.tokens[row.tokens.Length - 1])
  {
    var resident := row.tokens.Length - 1;
    ghost var tail := out.encoded[|q.topk|..];
    hitCount, evictableCount, currentSlot := 0, 0, resident;
    ScanStarts(r, q, row.tokens[..], ws.slots[..], out.slots[..], out.encoded[..]);
    hide Scanned, Stamped;
    for k := 0 to resident
      invariant Scanned(r, q, k, row.tokens[..], ws.slots[..], out.slots[..], out.encoded[..],
                        tail, hitCount, evictableCount, currentSlot)
      invariant row.tokens[resident] == old(row.tokens[resident])
    {
      hitCount, evictableCount, currentSlot :=
        Visit(r, q, k, row.order[k], row.tokens, ws.mark, ws.position, ws.epoch, ws.slots, out.slots, out.encoded, tail,
              hitCount, evictableCount, currentSlot);
    }
  }

  // ----- misses

  lemma MissStep(r: Row, q: Query, p: nat)
    requires p < |q.topk|
    ensures Filter(MissTest(r, q), Iota(|q.topk|)[..p + 1])
            == Filter(MissTest(r, q), Iota(|q.topk|)[..p])
               + (if Shown(q, q.topk[p]) && LocatedTable(r.order, Live(r, q), q)[p] < 0 then [p] else [])
  {
    FilterStep(MissTest(r, q), Iota(|q.topk|), p);
  }

  /** List the shown positions that the scan did not locate. */
  method CollectMisses(ghost r: Row, q: Query, slots: array<int>, missTokens: array<int>, missPositions: array<int>)
    returns (count: int)
    requires slots[..] == LocatedTable(r.order, Live(r, q), q)
    requires missTokens.Length == missPositions.Length == |q.topk|
    requires slots != missTokens && slots != missPositions && missTokens != missPositions
    requires forall p :: 0 <= p < |q.topk| ==> missTokens[p] == -1
    modifies missTokens, missPositions
    ensures count == |Misses(r, q)| <= |q.topk|
    ensures missPositions[..count] == Misses(r, q)
    ensures missTokens[..] == Padded(MissedTokens(r, q), |q.topk|)
  {
    count := 0;
    ghost var all := Iota(|q.topk|);
    assert Filter(MissTest(r, q), all[..0]) == [];
    hide Filter, LocatedTable, Live, MissTest, Iota;
    for p := 0 to |q.topk|
      invariant 0 <= count <= p
      invariant missPositions[..count] == Filter(MissTest(r, q), all[..p])
      invariant MissesWritten(q, missPositions[..], missTokens[..], count)
    {
      MissStep(r, q, p);
      ghost var positions, tokens := missPositions[..], missTokens[..];
      var token := q.topk[p];
      assert slots[p] == slots[..][p];
      if IsToken(q, token) && token < q.visible && slots[p] < 0 {
        missTokens[count] := token;
        missPositions[count] := p;
        assert missPositions[..] == positions[count := p] && missTokens[..] == tokens[count := token];
        WindowUpdate(positions, 0, count, count, p);
        MissWritten(q, positions, tokens, count, p);
        count := count + 1;
      }
    }
    assert all[..|q.topk|] == all;
    MissesPadded(r, q, missPositions[..], missTokens[..], count);
  }

  ghost predicate MissesWritten(q: Query, positions: seq<int>, tokens: seq<int>, count: int) {
    && 0 <= count <= |q.topk| == |positions| == |tokens|
    && (forall i :: 0 <= i < count ==> 0 <= positions[i] < |q.topk| && tokens[i] == q.topk[positions[i]])
    && forall i :: count <= i < |q.topk| ==> tokens[i] == -1
  }

  lemma MissWritten(q: Query, positions: seq<int>, tokens: seq<int>, count: int, p: int)
    requires MissesWritten(q, positions, tokens, count) && count < |q.topk| && 0 <= p < |q.topk|
    ensures MissesWritten(q, positions[count := p], tokens[count := q.topk[p]], count + 1)
  {
  }

  lemma MissesPadded(r: Row, q: Query, positions: seq<int>, tokens: seq<int>, count: int)
    requires MissesWritten(q, positions, tokens, count) && positions[..count] == Misses(r, q)
    ensures count == |Misses(r, q)| && tokens == Padded(MissedTokens(r, q), |q.topk|)
  {
    hide Misses;
    forall i | 0 <= i < count ensures tokens[i] == MissedTokens(r, q)[i] {
      assert positions[i] == positions[..count][i];
    }
  }

  /** The row once the first n misses have been given the n least recently used free slots. */
  ghost predicate RowFilled(r: Row, q: Query, n: int, tokens: seq<int>, work: seq<int>) {
    var evictable, capacity := Evictable(r, q), |r.tokens| + 1;
    Positions(r, q);
    && 0 <= n <= Assigned(r, q) && |tokens| == capacity && |work| == 3 * capacity && |evictable| < capacity
    && tokens[..|r.tokens|] == Scatter(Live(r, q), evictable, MissedTokens(r, q), n)
    && work[capacity..capacity + |evictable|] == evictable
    && work[2 * capacity..2 * capacity + n] == evictable[..n]
  }

  /** The plan at the same moment. */
  ghost predicate PlanFilled(r: Row, q: Query, n: int, slots: seq<int>, codes: seq<int>, tail: seq<int>,
                             missSlots: seq<int>, current: int) {
    Positions(r, q);
    && 0 <= n <= Assigned(r, q) && n <= |q.topk|
    && slots == Scatter(LocatedTable(r.order, Live(r, q), q), Misses(r, q), Evictable(r, q), n)
    && codes == Scatter(HitCodes(LocatedTable(r.order, Live(r, q), q)), Misses(r, q), MissCodes(r, q), n) + tail
    && missSlots == Padded(Evictable(r, q)[..n], |q.topk|)
    && current == CurrentAfter(r, q, n)
  }

  lemma FillStarts(r: Row, q: Query, tokens: seq<int>, work: seq<int>, slots: seq<int>, codes: seq<int>,
                   tail: seq<int>, hits: int, evictable: int, current: int, missSlots: seq<int>)
    requires Scanned(r, q, |r.order|, tokens, work, slots, codes, tail, hits, evictable, current)
    requires |missSlots| == |q.topk| && forall p :: 0 <= p < |q.topk| ==> missSlots[p] == -1
    ensures RowFilled(r, q, 0, tokens, work) && PlanFilled(r, q, 0, slots, codes, tail, missSlots, current)
    ensures slots == LocatedTable(r.order, Live(r, q), q)
    ensures hits == |Hits(r, q)| && evictable == |Evictable(r, q)| && hits + evictable <= |r.tokens|
    ensures work[..hits] == Hits(r, q)
  {
    assert r.order[..|r.order|] == r.order;
    assert Evictable(r, q)[..0] == [];
  }

  /** Slot, token and position of the next miss, all in range. */
  lemma NextMiss(r: Row, q: Query, n: int, tokens: seq<int>, work: seq<int>)
    requires 0 <= n < Assigned(r, q) && RowFilled(r, q, n, tokens, work)
    ensures n < |Misses(r, q)| <= |q.topk| && n < |Evictable(r, q)| < |tokens| == |r.tokens| + 1
            && |work| == 3 * |tokens|
    ensures work[|tokens| + n] == Evictable(r, q)[n] && 0 <= Evictable(r, q)[n] < |r.tokens|
    ensures 0 <= Misses(r, q)[n] < |q.topk| && MissedTokens(r, q)[n] == q.topk[Misses(r, q)[n]]
  {
    Positions(r, q);
    var capacity, e := |tokens|, |Evictable(r, q)|;
    assert work[capacity + n] == work[capacity..capacity + e][n];
  }

  lemma WorkStep(work: seq<int>, capacity: nat, evictable: seq<int>, n: nat)
    requires |work| == 3 * capacity && n < |evictable| < capacity
    requires work[capacity..capacity + |evictable|] == evictable && work[2 * capacity..2 * capacity + n]
             == evictable[..n]
    ensures var w := work[2 * capacity + n := evictable[n]];
            && w[capacity..capacity + |evictable|] == evictable
            && w[2 * capacity..2 * capacity + n + 1] == evictable[..n + 1]
  {
    WindowUpdate(work, capacity, capacity + |evictable|, 2 * capacity + n, evictable[n]);
    WindowUpdate(work, 2 * capacity, 2 * capacity + n, 2 * capacity + n, evictable[n]);
  }

  lemma RowFillStep(r: Row, q: Query, n: int, tokens: seq<int>, work: seq<int>)
    requires 0 <= n < Assigned(r, q) && RowFilled(r, q, n, tokens, work)
    ensures 0 <= Evictable(r, q)[n] < |tokens| && 2 * |tokens| + n < |work|
    ensures RowFilled(r, q, n + 1, tokens[Evictable(r, q)[n] := MissedTokens(r, q)[n]],
                      work[2 * |tokens| + n := Evictable(r, q)[n]])
  {
    NextMiss(r, q, n, tokens, work);
    hide Live, Evictable, Misses, MissedTokens, Assigned;
    var evictable, capacity := Evictable(r, q), |tokens|;
    var s, t := evictable[n], MissedTokens(r, q)[n];
    WorkStep(work, capacity, evictable, n);
    assert tokens[s := t][..|r.tokens|] == tokens[..|r.tokens|][s := t];
  }

  lemma PlanFillStep(r: Row, q: Query, n: int, slots: seq<int>, codes: seq<int>, tail: seq<int>,
                     missSlots: seq<int>, current: int)
    requires 0 <= n < Assigned(r, q) && PlanFilled(r, q, n, slots, codes, tail, missSlots, current)
    ensures |slots| == |missSlots| == |q.topk| <= |codes| && 0 <= Misses(r, q)[n] < |q.topk| && n < |q.topk|
    ensures var s, t, p := Evictable(r, q)[n], MissedTokens(r, q)[n], Misses(r, q)[n];
            PlanFilled(r, q, n + 1, slots[p := s], codes[p := MissCode(q, t, s)], tail, missSlots[n := s],
                       if IsCurrent(q, t) then s else current)
  {
    Positions(r, q);
    var p, s, t := Misses(r, q)[n], Evictable(r, q)[n], MissedTokens(r, q)[n];
    hide Live, Evictable, Misses, MissedTokens, Assigned, LocatedTable, HitCodes, MissCode, LocatedIn;
    assert missSlots[n := s] == Padded(Evictable(r, q)[..n + 1], |q.topk|);
    assert codes[p := MissCode(q, t, s)][..|q.topk|] == codes[..|q.topk|][p := MissCode(q, t, s)];
  }

  /** Give the first `count` free slots to the misses. */
  method AssignMisses(ghost r: Row, q: Query, count: int, tokens: array<int>, work: array<int>, missTokens: array<int>,
                      missPositions: array<int>, slots: array<int>, encoded: array<int>, missSlots: array<int>,
                      current: int, ghost tail: seq<int>)
    returns (currentSlot: int)
    requires tokens.Length <= INT16_MAX && tokens.Length == |r.tokens| + 1 && work.Length == 3 * tokens.Length
    requires tokens != work && tokens != missTokens && tokens != missPositions && tokens != slots && tokens != encoded
    requires tokens != missSlots && work != missTokens && work != missPositions && work != slots && work != encoded
    requires work != missSlots && missTokens != slots && missTokens != encoded && missTokens != missSlots
    requires missPositions != slots && missPositions != encoded && missPositions != missSlots
    requires slots != encoded && slots != missSlots && encoded != missSlots
    requires count == Assigned(r, q) && RowFilled(r, q, 0, tokens[..], work[..])
    requires PlanFilled(r, q, 0, slots[..], encoded[..], tail, missSlots[..], current)
    requires missTokens.Length == |q.topk| && |Misses(r, q)| <= missPositions.Length
    requires missPositions[..|Misses(r, q)|] == Misses(r, q)
    requires missTokens[..] == Padded(MissedTokens(r, q), |q.topk|)
    modifies tokens, work, slots, encoded, missSlots
    ensures RowFilled(r, q, count, tokens[..], work[..]) && work[..tokens.Length] == old(work[..tokens.Length])
    ensures PlanFilled(r, q, count, slots[..], encoded[..], tail, missSlots[..], currentSlot)
    ensures tokens[tokens.Length - 1] == old(tokens[tokens.Length - 1])
  {
    currentSlot := current;
    hide RowFilled, PlanFilled, Padded, Misses, MissedTokens, Evictable, Assigned;
    var capacity := tokens.Length;
    for n := 0 to count
      invariant RowFilled(r, q, n, tokens[..], work[..]) && work[..capacity] == old(work[..capacity])
      invariant PlanFilled(r, q, n, slots[..], encoded[..], tail, missSlots[..], currentSlot)
      invariant tokens[capacity - 1] == old(tokens[capacity - 1])
    {
      ghost var t0, w0, s0, e0, m0 := tokens[..], work[..], slots[..], encoded[..], missSlots[..];
      NextMiss(r, q, n, t0, w0);
      RowFillStep(r, q, n, t0, w0);
      PlanFillStep(r, q, n, s0, e0, tail, m0, currentSlot);
      assert missPositions[n] == missPositions[..|Misses(r, q)|][n];
      assert missTokens[n] == MissedTokens(r, q)[n] by { PaddedAt(MissedTokens(r, q), |q.topk|, n); }
      var slot := work[capacity + n];
      var token := missTokens[n];
      var p := missPositions[n];
      tokens[slot] := token;
      slots[p] := slot;
      if token == q.visible - 1 {
        currentSlot := slot;
      }
      encoded[p] := ToInt16(if token == q.visible - 1 then slot + 1 else -(slot + 1));
      missSlots[n] := slot;
      work[2 * capacity + n] := slot;
      assert tokens[..] == t0[slot := token] && work[..] == w0[2 * capacity + n := slot];
      assert slots[..] == s0[p := slot] && encoded[..] == e0[p := MissCode(q, token, slot)];
      assert missSlots[..] == m0[n := slot];
      WindowUpdate(w0, 0, capacity, 2 * capacity + n, slot);
    }
  }

  lemma PaddedAt(s: seq<int>, n: nat, i: nat)
    requires i < |s| <= n
    ensures Padded(s, n)[i] == s[i]
  {
  }

  // ----- the new order

  method CopyRun(dst: array<int>, at: int, src: array<int>, from: int, count: int)
    requires dst != src && 0 <= count && 0 <= at <= at + count <= dst.Length && 0 <= from <= from + count <= src.Length
    modifies dst
    ensures forall x :: 0 <= x < dst.Length ==> dst[x] == if at <= x < at + count then src[from + x - at]
            else old(dst[x])
  {
    for i := 0 to count
      invariant forall x :: 0 <= x < dst.Length ==> dst[x] == if at <= x < at + i then src[from + x - at]
                else old(dst[x])
    {
      dst[at + i] := src[from + i];
    }
  }

  lemma NextOrderRuns(r: Row, q: Query, order: seq<int>)
    requires |Hits(r, q)| + |Evictable(r, q)| <= |r.order| < |order| && order[..|r.order|] == r.order
    ensures var all := Evictable(r, q)[Assigned(r, q)..] + Evictable(r, q)[..Assigned(r, q)] + Hits(r, q)
                       + order[|Evictable(r, q)| + |Hits(r, q)|..];
            |all| == |order| && all[..|r.order|] == NextOrder(r, q) && all[|r.order|..] == order[|r.order|..]
  {
    hide Hits, Evictable, Assigned;
    var n := |Evictable(r, q)| + |Hits(r, q)|;
    assert order[n..][..|r.order| - n] == r.order[n..];
  }

  /** Kept slots, then refilled slots, then hits. */
  method RewriteOrder(order: array<int>, work: array<int>, hits: int, evictable: int, filled: int,
                      ghost h: seq<int>, ghost e: seq<int>)
    requires order != work && work.Length == 3 * order.Length
    requires hits == |h| && evictable == |e| && hits + evictable <= order.Length && 0 <= filled <= evictable
    requires work[..hits] == h && work[order.Length..order.Length + evictable] == e
    requires work[2 * order.Length..2 * order.Length + filled] == e[..filled]
    modifies order
    ensures order[..] == e[filled..] + e[..filled] + h + old(order[hits + evictable..])
  {
    var capacity, kept := order.Length, evictable - filled;
    ghost var o := order[..];
    CopyRun(order, 0, work, capacity + filled, kept);
    CopyRun(order, kept, work, 2 * capacity, filled);
    CopyRun(order, evictable, work, 0, hits);
    ghost var all := e[filled..] + e[..filled] + h + o[hits + evictable..];
    forall x | 0 <= x < capacity ensures order[x] == all[x] {
      if x < kept {
        assert work[capacity + filled + x] == work[capacity..capacity + evictable][filled + x];
      } else if x < evictable {
        assert work[2 * capacity + x - kept] == work[2 * capacity..2 * capacity + filled][x - kept];
      } else if x < evictable + hits {
        assert work[x - evictable] == work[..hits][x - evictable];
      }
    }
  }

  // ----- the whole step

  /** One logical row of a batch, as the caller passes it. */
  datatype Request = Request(id: int, topk: seq<int>, stablePrefix: int, visibleLen: int)

  function QueryOf(req: Request, maxToken: int): (q: Query)
    ensures q.topk == req.topk && q.maxToken == maxToken
    ensures maxToken >= 0 ==> InRange(q)
  {
    Query(req.topk, Clamp(req.stablePrefix, 0, maxToken), Clamp(req.visibleLen, 0, maxToken), maxToken)
  }

  lemma RowFinished(r: Row, q: Query, tokens: seq<int>, work: seq<int>, order: seq<int>, order': seq<int>)
    requires RowFilled(r, q, Assigned(r, q), tokens, work) && |order| == |tokens| && |r.order| == |r.tokens|
    requires order[..|r.order|] == r.order && |Hits(r, q)| + |Evictable(r, q)| <= |r.order|
    requires order' == Evictable(r, q)[Assigned(r, q)..] + Evictable(r, q)[..Assigned(r, q)] + Hits(r, q)
                       + order[|Hits(r, q)| + |Evictable(r, q)|..]
    ensures tokens[..|r.tokens|] == NextTokens(r, q) && order'[..|r.tokens|] == NextOrder(r, q)
    ensures order'[|r.tokens|] == order[|r.tokens|]
  {
    NextOrderRuns(r, q, order);
    assert order'[|r.tokens|] == order'[|r.order|..][0] == order[|r.order|..][0];
  }

  lemma PlanFinished(r: Row, q: Query, slots: seq<int>, codes: seq<int>, tail: seq<int>, missSlots: seq<int>,
                     current: int)
    requires PlanFilled(r, q, Assigned(r, q), slots, codes, tail, missSlots, current) && |slots| == |q.topk| <= |codes|
    ensures slots == Slots(r, q) && codes[..|q.topk|] == Encoded(r, q) && codes[|q.topk|..] == tail
    ensures missSlots == Padded(Evictable(r, q)[..Assigned(r, q)], |q.topk|) && current == CurrentSlot(r, q)
  {
    hide Live, Evictable, Misses, MissedTokens, Assigned, LocatedTable, HitCodes, MissCodes, CurrentAfter;
    assert codes == Encoded(r, q) + tail;
  }

  lemma FilledWork(r: Row, q: Query, tokens: seq<int>, work: seq<int>)
    requires RowFilled(r, q, Assigned(r, q), tokens, work)
    ensures |work| == 3 * |tokens| && |Evictable(r, q)| < |tokens| == |r.tokens| + 1
    ensures work[|tokens|..|tokens| + |Evictable(r, q)|] == Evictable(r, q)
    ensures work[2 * |tokens|..2 * |tokens| + Assigned(r, q)] == Evictable(r, q)[..Assigned(r, q)]
  {
  }

  /** Scan the row, list the misses and give them slots. */
  method Fill(ghost r: Row, row: PhysicalRow, q: Query, ws: Workspace, out: PlanRow)
    returns (hits: int, evictable: int, filled: int, current: int)
    requires row.Valid(row.tokens.Length) && 2 <= row.tokens.Length <= INT16_MAX && r == row.View(r.owner)
    requires ws.Valid(q.maxToken) && Stamped(q, ws.mark[..], ws.position[..], ws.epoch)
    requires ws.slots.Length == 3 * row.tokens.Length && ws.missPositions.Length == |q.topk|
    requires out.Valid(|q.topk|) && Apart(row, ws, out)
    requires forall p :: 0 <= p < |q.topk| ==>
               out.slots[p] == -1 && out.encoded[p] == 0 && out.missTokens[p] == -1 && out.missSlots[p] == -1
    modifies row.tokens, ws.slots, ws.missPositions, out.slots, out.encoded, out.missTokens, out.missSlots
    ensures hits == |Hits(r, q)| && evictable == |Evictable(r, q)| && filled == Assigned(r, q)
    ensures hits + evictable < row.tokens.Length && ws.slots[..hits] == Hits(r, q)
    ensures RowFilled(r, q, filled, row.tokens[..], ws.slots[..])
    ensures PlanFilled(r, q, filled, out.slots[..], out.encoded[..], old(out.encoded[|q.topk|..]), out.missSlots[..],
                       current)
    ensures out.missTokens[..] == Padded(MissedTokens(r, q), |q.topk|)
    ensures row.tokens[row.tokens.Length - 1] == old(row.tokens[row.tokens.Length - 1])
  {
    hide Scanned, RowFilled, PlanFilled, Live, Hits, Evictable, Misses, MissedTokens, Padded, Stamped, LocatedTable;
    ghost var tail := out.encoded[|q.topk|..];
    hits, evictable, current := Scan(r, row, q, ws, out);
    FillStarts(r, q, row.tokens[..], ws.slots[..], out.slots[..], out.encoded[..], tail, hits, evictable, current,
               out.missSlots[..]);
    var missed := CollectMisses(r, q, out.slots, out.missTokens, ws.missPositions);
    filled := if missed <= evictable then missed else evictable;
    ghost var listed := ws.slots[..row.tokens.Length];
    assert ws.slots[..hits] == listed[..hits];
    current := AssignMisses(r, q, filled, row.tokens, ws.slots, out.missTokens, ws.missPositions, out.slots,
                            out.encoded,
                            out.missSlots, current, tail);
    assert ws.slots[..hits] == listed[..hits];
  }

  /** The step on a row that already belongs to the request, with cleared plan and stamped table. */
  method PlanClaimed(ghost r: Row, row: PhysicalRow, q: Query, ws: Workspace, out: PlanRow, rowStart: int)
    requires row.Valid(row.tokens.Length) && 2 <= row.tokens.Length <= INT16_MAX && r == row.View(r.owner)
    requires ws.Valid(q.maxToken) && Stamped(q, ws.mark[..], ws.position[..], ws.epoch)
    requires ws.slots.Length == 3 * row.tokens.Length && ws.missPositions.Length == |q.topk|
    requires out.Valid(|q.topk|) && Apart(row, ws, out)
    requires forall p :: 0 <= p < |q.topk| ==>
               out.slots[p] == -1 && out.encoded[p] == 0 && out.missTokens[p] == -1 && out.missSlots[p] == -1
    modifies row.tokens, row.order, ws.slots, ws.missPositions, out, out.slots, out.encoded, out.missTokens,
             out.missSlots
    ensures row.View(r.owner) == Row(r.owner, NextTokens(r, q), NextOrder(r, q))
    ensures out.View(rowStart) == PlanFor(r, r.owner, q)
    ensures out.encoded[|q.topk|..] == old(out.encoded[|q.topk|..])
    ensures row.tokens[row.tokens.Length - 1] == old(row.tokens[row.tokens.Length - 1])
    ensures row.order[row.order.Length - 1] == old(row.order[row.order.Length - 1])
  {
    hide RowFilled, PlanFilled, Hits, Evictable, Stamped, Assigned;
    hide Slots, Encoded, CurrentSlot, NextTokens, NextOrder, MissedTokens, Padded;
    ghost var order, tail := row.order[..], out.encoded[|q.topk|..];
    var hits, evictable, filled, current := Fill(r, row, q, ws, out);
    FilledWork(r, q, row.tokens[..], ws.slots[..]);
    RewriteOrder(row.order, ws.slots, hits, evictable, filled, Hits(r, q), Evictable(r, q));
    RowFinished(r, q, row.tokens[..], ws.slots[..], order, row.order[..]);
    PlanFinished(r, q, out.slots[..], out.encoded[..], tail, out.missSlots[..], current);
    out.missCount := filled;
    out.currentToken := rowStart + current;
  }

  lemma ClaimOnce(row: Row, id: int)
    ensures Claim(row, id).owner == id && Claim(Claim(row, id), id) == Claim(row, id)
  {
  }

  /** Hand the row to request id, emptied unless it has it already. */
  method ClaimRow(owners: array<int>, p: int, row: PhysicalRow, id: int)
    requires 0 <= p < owners.Length && 1 <= row.tokens.Length && row.Valid(row.tokens.Length) && owners !in row.Repr()
    modifies owners, row.Repr()
    ensures owners[..] == old(owners[..])[p := id] && row.View(id) == Claim(old(row.View(owners[p])), id)
    ensures row.tokens[row.tokens.Length - 1] == old(row.tokens[row.tokens.Length - 1])
    ensures row.order[row.order.Length - 1] == old(row.order[row.order.Length - 1])
  {
    if owners[p] != id {
      row.Reset();
      owners[p] := id;
    }
  }

  /** The row step.  Its result depends on the row and the request alone, not on the scratch memory. */
  method ProcessRow(owners: array<int>, physicalRow: int, row: PhysicalRow, req: Request, maxToken: int, ws: Workspace,
                    out: PlanRow)
    requires 1 <= row.tokens.Length <= INT16_MAX && row.Valid(row.tokens.Length)
    requires 0 <= physicalRow < owners.Length <= INT16_MAX && owners !in row.Repr() + ws.Repr() + out.Repr()
    requires maxToken >= 0 && ws.Valid(maxToken) && out.Valid(|req.topk|) && Apart(row, ws, out)
    requires ws.slots.Length == 3 * row.tokens.Length && ws.missPositions.Length == |req.topk|
    modifies owners, row.Repr(), ws.Repr(), out.Repr()
    ensures ws.Valid(maxToken)
    ensures row.tokens.Length == 1 ==> owners[..] == old(owners[..]) && row.tokens[..] == old(row.tokens[..])
    ensures row.tokens.Length == 1 ==> out.View(0) == old(out.View(0)) && out.encoded[..] == old(out.encoded[..])
    ensures row.tokens.Length >= 2 ==>
              && owners[..] == old(owners[..])[physicalRow := req.id]
              && row.View(req.id) == NextRow(old(row.View(owners[physicalRow])), req.id, QueryOf(req, maxToken))
              && out.View(physicalRow * row.tokens.Length)
                 == PlanFor(old(row.View(owners[physicalRow])), req.id, QueryOf(req, maxToken))
              && out.encoded[|req.topk|..] == Control(old(out.encoded[|req.topk|..]), physicalRow, row.tokens.Length)
    ensures row.tokens[row.tokens.Length - 1] == old(row.tokens[row.tokens.Length - 1])
    ensures row.order[row.order.Length - 1] == old(row.order[row.order.Length - 1])
  {
    hide Stamped, Control, QueryOf, NextTokens, NextOrder, Slots, Encoded, CurrentSlot, MissedTokens, Evictable,
         Assigned;
    hide Claim, FreshRow;
    var capacity := row.tokens.Length;
    if capacity - 1 <= 0 {
      return;
    }
    var q := QueryOf(req, maxToken);
    out.Clear(physicalRow, capacity);
    ClaimRow(owners, physicalRow, row, req.id);
    ClaimOnce(old(row.View(owners[physicalRow])), req.id);
    ghost var r := row.View(req.id);
    ws.Stamp(q);
    PlanClaimed(r, row, q, ws, out, physicalRow * capacity);
  }

  // ----- the epochs of a thread

  function EpochAfter(steps: nat): int {
    if steps == 0 then 0
    else if EpochAfter(steps - 1) + 1 < EPOCH_RESET_THRESHOLD then EpochAfter(steps - 1) + 1 else 1
  }

  /** `Workspace.NextEpoch` runs through 1, ..., 2^30 - 1 over and over: an int32 never overflows. */
  lemma {:induction false} EpochCycles(steps: nat)
    requires steps > 0
    ensures EpochAfter(steps) == (steps - 1) % 0x3FFF_FFFF + 1
  {
    if steps > 1 { EpochCycles(steps - 1); }
  }
}
