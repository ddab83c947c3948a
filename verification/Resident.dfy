/** One planning step of a resident row, as a function of the row and its query.

    A row caches up to R tokens of one request in R device slots.  `tokens[s]`
    is the token held by slot s (-1 when empty) and `order` lists the slots from
    least to most recently used.  A step drops the tokens past the stable prefix,
    finds which wanted tokens are resident, gives slots to the others in LRU order
    and writes the copy plan. */
module Resident {
  import opened Lists

  datatype Row = Row(owner: int, tokens: seq<int>, order: seq<int>)

  /** The inputs of a step, with both lengths already clamped to [0, maxToken]. */
  datatype Query = Query(topk: seq<int>, stable: int, visible: int, maxToken: int)

  datatype Plan = Plan(slots: seq<int>, missTokens: seq<int>, missSlots: seq<int>, missCount: int,
                       encoded: seq<int>, currentSlot: int)

  function Clamp(x: int, lo: int, hi: int): int { Max(lo, Min(x, hi)) }

  predicate InRange(q: Query) {
    0 <= q.stable <= q.maxToken && 0 <= q.visible <= q.maxToken
  }

  predicate IsToken(q: Query, t: int) { 0 <= t < q.maxToken }

  predicate Shown(q: Query, t: int) { IsToken(q, t) && t < q.visible }

  predicate Wanted(q: Query, t: int) { Shown(q, t) && t in q.topk }

  predicate IsCurrent(q: Query, t: int) { t == q.visible - 1 }

  function FirstPosition(topk: seq<int>, t: int): (p: int)
    requires t in topk
    ensures 0 <= p < |topk| && topk[p] == t && forall i :: 0 <= i < p ==> topk[i] != t
  {
    if t in topk[..|topk| - 1] then FirstPosition(topk[..|topk| - 1], t) else |topk| - 1
  }

  function FreshRow(owner: int, capacity: nat): (r: Row) {
    Row(owner, seq(capacity, _ => -1), Iota(capacity))
  }

  /** A row that changes hands is emptied first. */
  function Claim(row: Row, id: int): (r: Row) {
    if row.owner == id then row else FreshRow(id, |row.tokens|)
  }

  /** What slot s may still offer: a listed slot loses a token past the stable prefix. */
  function LiveToken(order: seq<int>, q: Query, s: int, token: int): int {
    if s in order && IsToken(q, token) && token >= q.stable then -1 else token
  }

  function LiveIn(order: seq<int>, q: Query, tokens: seq<int>): (live: seq<int>)
    ensures |live| == |tokens|
    ensures forall s :: 0 <= s < |live| ==> live[s] == LiveToken(order, q, s, tokens[s])
  {
    seq(|tokens|, s requires 0 <= s < |tokens| => LiveToken(order, q, s, tokens[s]))
  }

  /** The tokens that may still be reused. */
  function Live(row: Row, q: Query): (live: seq<int>)
    ensures |live| == |row.tokens|
  {
    LiveIn(row.order, q, row.tokens)
  }

  predicate IsHit(live: seq<int>, q: Query, s: int) {
    0 <= s < |live| && Wanted(q, live[s])
  }

  function HitTest(live: seq<int>, q: Query): int -> bool {
    s => IsHit(live, q, s)
  }

  function EvictTest(live: seq<int>, q: Query): int -> bool {
    s => 0 <= s < |live| && !IsHit(live, q, s)
  }

  function Hits(row: Row, q: Query): seq<int> { Filter(HitTest(Live(row, q), q), row.order) }

  function Evictable(row: Row, q: Query): seq<int> { Filter(EvictTest(Live(row, q), q), row.order) }

  /** The last slot of `order` that hits with a token whose first position is pos, or -1. */
  function LocatedIn(order: seq<int>, live: seq<int>, q: Query, pos: int): (s: int)
    ensures s == -1 || (s in order && IsHit(live, q, s) && FirstPosition(q.topk, live[s]) == pos)
  {
    if order == [] then -1
    else
      var s := order[|order| - 1];
      if IsHit(live, q, s) && FirstPosition(q.topk, live[s]) == pos then s
      else LocatedIn(order[..|order| - 1], live, q, pos)
  }

  function Located(row: Row, q: Query, pos: int): int { LocatedIn(row.order, Live(row, q), q, pos) }

  function MissTest(row: Row, q: Query): int -> bool {
    p => 0 <= p < |q.topk| && Shown(q, q.topk[p]) && Located(row, q, p) < 0
  }

  function Misses(row: Row, q: Query): seq<int> { Filter(MissTest(row, q), Iota(|q.topk|)) }

  /** How many misses get a slot. */
  function Assigned(row: Row, q: Query): (n: nat)
    ensures n <= |Misses(row, q)| && n <= |Evictable(row, q)|
  {
    Min(|Misses(row, q)|, |Evictable(row, q)|)
  }

  lemma Positions(row: Row, q: Query)
    ensures forall i :: 0 <= i < |Misses(row, q)| ==> MissTest(row, q)(Misses(row, q)[i])
    ensures forall i :: 0 <= i < |Evictable(row, q)| ==> EvictTest(Live(row, q), q)(Evictable(row, q)[i])
    ensures forall i :: 0 <= i < |Hits(row, q)| ==> IsHit(Live(row, q), q, Hits(row, q)[i])
  {
    FilterMember(MissTest(row, q), Iota(|q.topk|));
    FilterMember(EvictTest(Live(row, q), q), row.order);
    FilterMember(HitTest(Live(row, q), q), row.order);
    hide Live, Located, Filter;
    var misses, evictable, hits := Misses(row, q), Evictable(row, q), Hits(row, q);
    forall i | 0 <= i < |misses| ensures MissTest(row, q)(misses[i]) { assert misses[i] in misses; }
    forall i | 0 <= i < |evictable| ensures EvictTest(Live(row, q), q)(evictable[i]) {
      assert evictable[i] in evictable;
    }
    forall i | 0 <= i < |hits| ensures IsHit(Live(row, q), q, hits[i]) {
      assert hits[i] in hits;
      assert HitTest(Live(row, q), q)(hits[i]);
    }
  }

  /** The tokens of the misses, in position order. */
  function MissedTokens(row: Row, q: Query): (r: seq<int>)
    ensures |r| == |Misses(row, q)|
  {
    Positions(row, q);
    seq(|Misses(row, q)|, i requires 0 <= i < |Misses(row, q)| => q.topk[Misses(row, q)[i]])
  }

  function NextTokens(row: Row, q: Query): (r: seq<int>)
    ensures |r| == |row.tokens|
  {
    Positions(row, q);
    Scatter(Live(row, q), Evictable(row, q), MissedTokens(row, q), Assigned(row, q))
  }

  /** Kept slots first, then the refilled ones, then the hits; cells past them keep their value. */
  function NextOrder(row: Row, q: Query): seq<int> {
    var evictable, hits, n := Evictable(row, q), Hits(row, q), Assigned(row, q);
    var listed := evictable[n..] + evictable[..n] + hits;
    listed + row.order[Min(|listed|, |row.order|)..]
  }

  function LocatedTable(order: seq<int>, live: seq<int>, q: Query): (r: seq<int>)
    ensures |r| == |q.topk| && forall p :: 0 <= p < |r| ==> r[p] == LocatedIn(order, live, q, p)
  {
    seq(|q.topk|, p => LocatedIn(order, live, q, p))
  }

  function Slots(row: Row, q: Query): (r: seq<int>)
    ensures |r| == |q.topk|
  {
    Positions(row, q);
    Scatter(LocatedTable(row.order, Live(row, q), q), Misses(row, q), Evictable(row, q), Assigned(row, q))
  }

  /** A reused slot is slot + 1, a slot to be filled by a copy is -(slot + 1).  The current
      token is produced on the device, so its slot needs no copy. */
  function MissCode(q: Query, t: int, slot: int): int {
    if IsCurrent(q, t) then slot + 1 else -(slot + 1)
  }

  function MissCodes(row: Row, q: Query): (r: seq<int>)
    ensures |r| == Assigned(row, q)
  {
    seq(Assigned(row, q), i requires 0 <= i < Assigned(row, q) =>
      MissCode(q, MissedTokens(row, q)[i], Evictable(row, q)[i]))
  }

  /** The codes of a slot table that holds hits only. */
  function HitCodes(table: seq<int>): (r: seq<int>)
    ensures |r| == |table| && forall p :: 0 <= p < |r| ==> r[p] == table[p] + 1
  {
    seq(|table|, p requires 0 <= p < |table| => table[p] + 1)
  }

  function Encoded(row: Row, q: Query): (r: seq<int>)
    ensures |r| == |q.topk|
  {
    Positions(row, q);
    Scatter(HitCodes(LocatedTable(row.order, Live(row, q), q)), Misses(row, q), MissCodes(row, q), Assigned(row, q))
  }

  /** Where the current token sits among the first k slots of the order, else the reserved slot. */
  function CurrentHit(order: seq<int>, live: seq<int>, q: Query): int {
    var t := q.visible - 1;
    if Wanted(q, t) && LocatedIn(order, live, q, FirstPosition(q.topk, t)) >= 0
    then LocatedIn(order, live, q, FirstPosition(q.topk, t)) else |live|
  }

  /** The same after the first n misses have been given slots. */
  function CurrentAfter(row: Row, q: Query, n: nat): int
    requires n <= Assigned(row, q)
  {
    if n == 0 then CurrentHit(row.order, Live(row, q), q)
    else if IsCurrent(q, MissedTokens(row, q)[n - 1]) then Evictable(row, q)[n - 1]
    else CurrentAfter(row, q, n - 1)
  }

  function CurrentSlot(row: Row, q: Query): int { CurrentAfter(row, q, Assigned(row, q)) }

  /** s, continued with -1 up to length n. */
  function Padded(s: seq<int>, n: nat): (r: seq<int>)
    requires |s| <= n
    ensures |r| == n
  {
    s + seq(n - |s|, _ => -1)
  }

  function NextRow(row: Row, id: int, q: Query): Row {
    var r := Claim(row, id);
    Row(id, NextTokens(r, q), NextOrder(r, q))
  }

  function PlanFor(row: Row, id: int, q: Query): (plan: Plan)
    ensures |plan.slots| == |plan.missTokens| == |plan.missSlots| == |plan.encoded| == |q.topk|
  {
    var r := Claim(row, id);
    Plan(Slots(r, q), Padded(MissedTokens(r, q), |q.topk|),
         Padded(Evictable(r, q)[..Assigned(r, q)], |q.topk|), Assigned(r, q), Encoded(r, q), CurrentSlot(r, q))
  }
}
