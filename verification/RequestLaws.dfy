/** What a request gets from its row, in the caller's own terms: the lengths and tokens of the
    request and the tokens of the row, not the bounds and lists the step works with. */
module RequestLaws {
  import opened Lists
  import opened Resident
  import opened ResidentLaws
  import opened RowStep

  /** A token the request may select. */
  predicate Visible(req: Request, maxToken: int, t: int) { 0 <= t < maxToken && t < req.visibleLen }

  /** Slot s holds a token of this request that its pool cannot have overwritten. */
  predicate Kept(row: Row, req: Request, maxToken: int, s: int) {
    && row.owner == req.id && 0 <= s < |row.tokens|
    && 0 <= row.tokens[s] < maxToken && row.tokens[s] < req.stablePrefix
  }

  /** The newest visible token. */
  function Newest(req: Request, maxToken: int): int { Min(req.visibleLen, maxToken) - 1 }

  /** Position p selects a visible token that no earlier position selects. */
  predicate FirstVisible(req: Request, maxToken: int, p: int) {
    0 <= p < |req.topk| && Visible(req, maxToken, req.topk[p]) && req.topk[p] !in req.topk[..p]
  }

  /** Position p finds its token in slot s of the row. */
  predicate Finds(row: Row, req: Request, maxToken: int, p: int, s: int) {
    FirstVisible(req, maxToken, p) && Kept(row, req, maxToken, s) && row.tokens[s] == req.topk[p]
  }

  ghost predicate Missed(row: Row, req: Request, maxToken: int, p: int) {
    0 <= p < |req.topk| && Visible(req, maxToken, req.topk[p]) && forall s :: !Finds(row, req, maxToken, p, s)
  }

  function Planned(row: Row, req: Request, maxToken: int): (plan: Plan)
    ensures |plan.slots| == |plan.missTokens| == |plan.missSlots| == |plan.encoded| == |req.topk|
  {
    PlanFor(row, req.id, QueryOf(req, maxToken))
  }

  function Stepped(row: Row, req: Request, maxToken: int): Row { NextRow(row, req.id, QueryOf(req, maxToken)) }

  /** What every reachable row is, whatever was selected: its order lists each slot once and its tokens
      are in range.  Selections that repeat a token may leave it in several slots. */
  ghost predicate RowSound(row: Row, maxToken: int) { Ordered(row) && TokensValid(row, maxToken) }

  // ----- the step's own terms

  /** The lengths of the request bound what they should. */
  lemma BoundsOf(req: Request, maxToken: int, t: int)
    ensures Shown(QueryOf(req, maxToken), t) <==> Visible(req, maxToken, t)
    ensures 0 <= t < maxToken ==> (t >= QueryOf(req, maxToken).stable <==> t >= req.stablePrefix)
    ensures Visible(req, maxToken, t) ==> (IsCurrent(QueryOf(req, maxToken), t) <==> t == Newest(req, maxToken))
  {
  }

  /** What a scan leaves in a slot. */
  lemma LiveIsKept(row: Row, req: Request, maxToken: int, s: int)
    requires RowSound(row, maxToken) && 0 <= s < |row.tokens|
    ensures var q := QueryOf(req, maxToken);
            Live(Claim(row, req.id), q)[s] == if Kept(row, req, maxToken, s) then row.tokens[s] else -1
  {
    PermutationOnto(row.order, |row.tokens|);
    BoundsOf(req, maxToken, row.tokens[s]);
  }

  lemma ClaimSound(row: Row, id: int, maxToken: int)
    requires RowSound(row, maxToken)
    ensures RowSound(Claim(row, id), maxToken) && |Claim(row, id).tokens| == |row.tokens|
  {
    FreshRowValid(id, |row.tokens|, maxToken);
  }

  lemma ClaimValid(row: Row, id: int, maxToken: int)
    requires RowValid(row, maxToken)
    ensures RowValid(Claim(row, id), maxToken) && |Claim(row, id).tokens| == |row.tokens|
  {
    FreshRowValid(id, |row.tokens|, maxToken);
  }

  lemma FirstIs(topk: seq<int>, p: nat)
    requires p < |topk|
    ensures FirstPosition(topk, topk[p]) == p <==> topk[p] !in topk[..p]
  {
    var f := FirstPosition(topk, topk[p]);
    if f < p { assert topk[..p][f] == topk[p]; }
  }

  /** Slot s was used no earlier than slot u. */
  ghost predicate NotEarlier(order: seq<int>, s: int, u: int) {
    exists a, b :: 0 <= a <= b < |order| && order[a] == u && order[b] == s
  }

  lemma {:induction false} LocatedLast(order: seq<int>, live: seq<int>, q: Query, u: int)
    requires u in order && IsHit(live, q, u)
    ensures NotEarlier(order, LocatedIn(order, live, q, FirstPosition(q.topk, live[u])), u)
  {
    var n, pos := |order| - 1, FirstPosition(q.topk, live[u]);
    var s := LocatedIn(order, live, q, pos);
    if s == order[n] {
      var a :| 0 <= a < |order| && order[a] == u;
      assert a <= n && order[n] == s;
    } else {
      LocatedLast(order[..n], live, q, u);
      var a, b :| 0 <= a <= b < n && order[..n][a] == u && order[..n][b] == s;
      assert order[a] == u && order[b] == s;
    }
  }

  /** A position is located exactly in the latest slot that keeps its token. */
  lemma LocatedIsFound(row: Row, req: Request, maxToken: int, p: nat)
    requires RowSound(row, maxToken) && p < |req.topk|
    ensures var s := Located(Claim(row, req.id), QueryOf(req, maxToken), p);
            && (s >= 0 ==> Finds(row, req, maxToken, p, s))
            && forall u :: Finds(row, req, maxToken, p, u) ==> s >= 0 && NotEarlier(row.order, s, u)
  {
    var q, r := QueryOf(req, maxToken), Claim(row, req.id);
    ClaimSound(row, req.id, maxToken);
    LocatedMeaning(r, q, p);
    FirstIs(req.topk, p);
    BoundsOf(req, maxToken, req.topk[p]);
    PermutationOnto(row.order, |row.tokens|);
    hide LocatedIn, QueryOf, FirstPosition, NotEarlier;
    var s := Located(r, q, p);
    if s >= 0 { LiveIsKept(row, req, maxToken, s); }
    forall u | Finds(row, req, maxToken, p, u) ensures s >= 0 && NotEarlier(row.order, s, u) {
      LiveIsKept(row, req, maxToken, u);
      assert IsHit(Live(r, q), q, u);
      LocatedLast(row.order, Live(r, q), q, u);
    }
  }

  /** A token kept in one slot only is found there. */
  lemma FindsOnce(row: Row, req: Request, maxToken: int, p: nat, s: int, u: int)
    requires Unique(row.tokens) && Finds(row, req, maxToken, p, s) && Finds(row, req, maxToken, p, u)
    ensures s == u
  {
  }

  lemma MissTestIsMissed(row: Row, req: Request, maxToken: int, p: nat)
    requires RowSound(row, maxToken) && p < |req.topk|
    ensures MissTest(Claim(row, req.id), QueryOf(req, maxToken))(p) <==> Missed(row, req, maxToken, p)
  {
    LocatedIsFound(row, req, maxToken, p);
    BoundsOf(req, maxToken, req.topk[p]);
    hide Located, Finds, RowSound;
  }

  // ----- what the plan says about a position

  /** What the caller reads at position p: a slot only for a visible token; the slot that keeps the
      token if there is one, the latest of several, without a copy; a copy otherwise, except for the
      newest token. */
  ghost predicate Answers(row: Row, req: Request, maxToken: int, plan: Plan, p: nat)
    requires p < |req.topk| == |plan.slots| == |plan.encoded|
  {
    var t, s, code := req.topk[p], plan.slots[p], plan.encoded[p];
    && -1 <= s < |row.tokens| && (s >= 0 ==> Visible(req, maxToken, t))
    && (forall u :: Finds(row, req, maxToken, p, u) ==> Finds(row, req, maxToken, p, s) && NotEarlier(row.order, s, u))
    && code == if s < 0 then 0
               else if Finds(row, req, maxToken, p, s) || t == Newest(req, maxToken) then s + 1
               else -(s + 1)
  }

  lemma PlanAnswers(row: Row, req: Request, maxToken: int, p: nat)
    requires RowSound(row, maxToken) && p < |req.topk|
    ensures Answers(row, req, maxToken, Planned(row, req, maxToken), p)
  {
    var q, r := QueryOf(req, maxToken), Claim(row, req.id);
    ClaimSound(row, req.id, maxToken);
    LocatedIsFound(row, req, maxToken, p);
    BoundsOf(req, maxToken, req.topk[p]);
    Tables(r, q);
    Positions(r, q);
    var i := SlotCases(r, q, p);
    hide Located, Finds, RowSound, QueryOf, Claim, Slots, Encoded, Evictable, Misses, Assigned, CurrentSlot;
    if i >= 0 { assert MissTest(r, q)(p); }
    if Slots(r, q)[p] >= 0 { SlotHoldsToken(r, q, p); }
  }

  // ----- who is left without a slot

  ghost function VisiblePositions(req: Request, maxToken: int): set<int> {
    set p | 0 <= p < |req.topk| && Visible(req, maxToken, req.topk[p])
  }

  lemma VisibleCount(req: Request, maxToken: int)
    ensures ShownCount(QueryOf(req, maxToken)) == |VisiblePositions(req, maxToken)|
  {
    var q := QueryOf(req, maxToken);
    var all := Iota(|q.topk|);
    var shown := Filter(ShownTest(q), all);
    FilterNoDup(ShownTest(q), all);
    FilterMember(ShownTest(q), all);
    NoDupCardinality(shown);
    forall p ensures p in shown <==> p in VisiblePositions(req, maxToken) {
      if 0 <= p < |q.topk| {
        BoundsOf(req, maxToken, q.topk[p]);
        assert all[p] == p;
      }
    }
    assert VisiblePositions(req, maxToken) == set p | p in shown;
  }

  /** Every visible position gets a slot exactly when there are no more of them than slots. */
  lemma AllServed(row: Row, req: Request, maxToken: int)
    requires RowValid(row, maxToken)
    ensures (forall p :: p in VisiblePositions(req, maxToken) ==> Planned(row, req, maxToken).slots[p] >= 0)
            <==> |VisiblePositions(req, maxToken)| <= |row.tokens|
  {
    var q, r := QueryOf(req, maxToken), Claim(row, req.id);
    ClaimValid(row, req.id, maxToken);
    VisibleCount(req, maxToken);
    NoMissDropped(r, q);
    forall p | 0 <= p < |req.topk| ensures Shown(q, req.topk[p]) <==> p in VisiblePositions(req, maxToken) {
      BoundsOf(req, maxToken, req.topk[p]);
    }
    hide ShownCount, Slots, Encoded, CurrentSlot, MissedTokens, Evictable, QueryOf, Claim;
  }

  // ----- the row after the step

  /** Afterwards a slot holds the token it was given for, else what it kept, else nothing. */
  lemma SlotAfter(row: Row, req: Request, maxToken: int, s: nat)
    requires RowSound(row, maxToken) && s < |row.tokens|
    ensures var plan, after := Planned(row, req, maxToken), Stepped(row, req, maxToken);
            && after.owner == req.id && |after.tokens| == |row.tokens|
            && (forall p :: 0 <= p < |req.topk| && plan.slots[p] == s ==> after.tokens[s] == req.topk[p])
            && (s !in plan.slots ==> after.tokens[s] == if Kept(row, req, maxToken, s) then row.tokens[s] else -1)
  {
    var q, r := QueryOf(req, maxToken), Claim(row, req.id);
    ClaimSound(row, req.id, maxToken);
    LiveIsKept(row, req, maxToken, s);
    Tables(r, q);
    hide RowSound, QueryOf, Claim, Slots, Encoded, Evictable, Misses, Assigned, CurrentSlot, NextTokens, NextOrder,
         Live;
    forall p | 0 <= p < |req.topk| && Slots(r, q)[p] == s ensures NextTokens(r, q)[s] == req.topk[p] {
      SlotHoldsToken(r, q, p);
    }
    if s in Evictable(r, q)[..Assigned(r, q)] {
      var i :| 0 <= i < Assigned(r, q) && Evictable(r, q)[..Assigned(r, q)][i] == s;
      assert Slots(r, q)[Misses(r, q)[i]] == s;
    }
  }

  // ----- the list of misses

  /** m lists the missed positions in order; the plan lists their tokens, and the slots of the first
      missCount of them, which are the ones that got a slot. */
  ghost predicate ListsMisses(row: Row, req: Request, maxToken: int, plan: Plan, m: seq<int>)
    requires |plan.slots| == |plan.missTokens| == |plan.missSlots| == |req.topk|
  {
    && SortedBy(m, (p: int) => p) && NoDup(m) && (forall p :: p in m <==> Missed(row, req, maxToken, p))
    && 0 <= plan.missCount <= |m| <= |req.topk| && (forall i :: 0 <= i < |m| ==> 0 <= m[i] < |req.topk|)
    && (forall i :: 0 <= i < |req.topk| ==> plan.missTokens[i] == if i < |m| then req.topk[m[i]] else -1)
    && (forall i :: 0 <= i < |req.topk| ==> plan.missSlots[i] == if i < plan.missCount then plan.slots[m[i]] else -1)
    && (forall i :: 0 <= i < |m| ==> (plan.slots[m[i]] >= 0 <==> i < plan.missCount))
  }

  lemma MissesSorted(row: Row, q: Query)
    ensures SortedBy(Misses(row, q), p => p)
  {
    FilterSorted(MissTest(row, q), Iota(|q.topk|), p => p);
  }

  lemma MissSlots(row: Row, q: Query, i: nat)
    requires Ordered(row) && i < |Misses(row, q)|
    ensures 0 <= Misses(row, q)[i] < |q.topk| && MissedTokens(row, q)[i] == q.topk[Misses(row, q)[i]]
    ensures if i < Assigned(row, q) then Slots(row, q)[Misses(row, q)[i]] == Evictable(row, q)[i] >= 0
            else Slots(row, q)[Misses(row, q)[i]] < 0
  {
    hide Located, Slots, Encoded, Evictable, Misses, Assigned, NextTokens;
    Positions(row, q);
    Tables(row, q);
    MissesNoDup(row, q);
    IndexBelow(Misses(row, q), i, Assigned(row, q));
    assert MissTest(row, q)(Misses(row, q)[i]);
  }

  lemma MissedExactly(row: Row, req: Request, maxToken: int)
    requires RowSound(row, maxToken)
    ensures forall p :: p in Misses(Claim(row, req.id), QueryOf(req, maxToken)) <==> Missed(row, req, maxToken, p)
  {
    MissesNoDup(Claim(row, req.id), QueryOf(req, maxToken));
    hide Misses, RowSound, Located, Finds;
    forall p ensures p in Misses(Claim(row, req.id), QueryOf(req, maxToken)) <==> Missed(row, req, maxToken, p) {
      if 0 <= p < |req.topk| { MissTestIsMissed(row, req, maxToken, p); }
    }
  }

  lemma MissesListed(row: Row, req: Request, maxToken: int)
    requires RowSound(row, maxToken)
    ensures exists m :: ListsMisses(row, req, maxToken, Planned(row, req, maxToken), m)
  {
    var q, r := QueryOf(req, maxToken), Claim(row, req.id);
    var m := Misses(r, q);
    ClaimSound(row, req.id, maxToken);
    MissedExactly(row, req, maxToken);
    MissesNoDup(r, q);
    MissesSorted(r, q);
    hide Misses, RowSound, Missed, MissTest, Claim, Slots, Encoded, CurrentSlot, QueryOf, MissedTokens, Evictable;
    forall i | 0 <= i < |m|
      ensures 0 <= m[i] < |q.topk| && MissedTokens(r, q)[i] == q.topk[m[i]]
      ensures if i < Assigned(r, q) then Slots(r, q)[m[i]] == Evictable(r, q)[i] >= 0 else Slots(r, q)[m[i]] < 0
    {
      MissSlots(r, q, i);
    }
    assert ListsMisses(row, req, maxToken, Planned(row, req, maxToken), m);
  }

  /** No visible position is left out while a slot is free. */
  lemma NoSlotIdle(row: Row, req: Request, maxToken: int, p: nat, s: nat)
    requires RowValid(row, maxToken) && p < |req.topk| && Visible(req, maxToken, req.topk[p]) && s < |row.tokens|
    requires Planned(row, req, maxToken).slots[p] < 0
    ensures s in Planned(row, req, maxToken).slots
  {
    var q, r := QueryOf(req, maxToken), Claim(row, req.id);
    ClaimValid(row, req.id, maxToken);
    BoundsOf(req, maxToken, req.topk[p]);
    hide RowValid, Claim, Slots, Encoded, CurrentSlot, QueryOf, MissedTokens;
    AllTaken(r, q, p, s);
  }

  lemma AllTaken(row: Row, q: Query, p: nat, s: nat)
    requires Ordered(row) && Unique(row.tokens) && p < |q.topk| && Shown(q, q.topk[p]) && s < |row.tokens|
    requires Slots(row, q)[p] < 0
    ensures s in Slots(row, q)
  {
    hide Live, Located, Slots, Encoded, Misses, Evictable, NextTokens;
    MissesNoDup(row, q);
    ScanSplits(row, q);
    Tables(row, q);
    var i := SlotCases(row, q, p);
    assert p in Misses(row, q) && p !in Misses(row, q)[..Assigned(row, q)];
    if IsHit(Live(row, q), q, s) {
      HitIsLocated(row, q, s);
    } else {
      assert Evictable(row, q)[..Assigned(row, q)] == Evictable(row, q);
      var k :| 0 <= k < |Evictable(row, q)| && Evictable(row, q)[k] == s;
      assert Slots(row, q)[Misses(row, q)[k]] == s;
    }
  }

  lemma HitIsLocated(row: Row, q: Query, s: nat)
    requires Ordered(row) && Unique(row.tokens) && IsHit(Live(row, q), q, s)
    ensures s in Slots(row, q)
  {
    var p := FirstPosition(q.topk, Live(row, q)[s]);
    LocatedMeaning(row, q, p);
    LiveUnique(row, q);
    hide Live, Located, Slots, FirstPosition, Misses, MissTest;
    assert Located(row, q, p) == s;
    var i := SlotCases(row, q, p);
    if i >= 0 { MissSlots(row, q, i); NotMissed(row, q, p); }
  }

  lemma NotMissed(row: Row, q: Query, p: int)
    requires Located(row, q, p) >= 0
    ensures p !in Misses(row, q)
  {
    MissesNoDup(row, q);
  }

  // ----- which slots are given away, and the order afterwards

  /** The request finds one of its tokens in slot s. */
  predicate Found(row: Row, req: Request, maxToken: int, s: int) {
    Kept(row, req, maxToken, s) && Visible(req, maxToken, row.tokens[s]) && row.tokens[s] in req.topk
  }

  function FoundTest(row: Row, req: Request, maxToken: int): int -> bool { s => Found(row, req, maxToken, s) }

  function FreeTest(row: Row, req: Request, maxToken: int): int -> bool { s => !Found(row, req, maxToken, s) }

  lemma HitIsFound(row: Row, req: Request, maxToken: int, s: int)
    requires RowSound(row, maxToken) && 0 <= s < |row.tokens|
    ensures IsHit(Live(Claim(row, req.id), QueryOf(req, maxToken)), QueryOf(req, maxToken), s)
            <==> Found(row, req, maxToken, s)
  {
    LiveIsKept(row, req, maxToken, s);
    BoundsOf(req, maxToken, row.tokens[s]);
    hide Live, Claim, RowSound;
  }

  lemma ScanIsFound(row: Row, req: Request, maxToken: int)
    requires RowSound(row, maxToken)
    ensures var q, r := QueryOf(req, maxToken), Claim(row, req.id);
            && Hits(r, q) == Filter(FoundTest(row, req, maxToken), r.order)
            && Evictable(r, q) == Filter(FreeTest(row, req, maxToken), r.order)
  {
    var q, r := QueryOf(req, maxToken), Claim(row, req.id);
    ClaimSound(row, req.id, maxToken);
    PermutationOnto(r.order, |r.tokens|);
    hide Live, Claim, RowSound, QueryOf, Found, IsHit, Filter;
    forall s | s in r.order
      ensures HitTest(Live(r, q), q)(s) <==> FoundTest(row, req, maxToken)(s)
      ensures EvictTest(Live(r, q), q)(s) <==> FreeTest(row, req, maxToken)(s)
    {
      HitIsFound(row, req, maxToken, s);
    }
    FilterAgree(HitTest(Live(r, q), q), FoundTest(row, req, maxToken), r.order);
    FilterAgree(EvictTest(Live(r, q), q), FreeTest(row, req, maxToken), r.order);
  }

  /** The misses get the least recently used slots the request finds nothing in, in that order; then
      come the slots left alone, the refilled ones and the ones found, each in their old order.  A row
      taken over counts its slots from 0. */
  lemma OrderAfter(row: Row, req: Request, maxToken: int)
    requires RowSound(row, maxToken)
    ensures var order := if row.owner == req.id then row.order else Iota(|row.tokens|);
            var free := Filter(FreeTest(row, req, maxToken), order);
            var found := Filter(FoundTest(row, req, maxToken), order);
            var plan := Planned(row, req, maxToken);
            && 0 <= plan.missCount <= |free| && plan.missCount <= |plan.missSlots|
            && plan.missSlots[..plan.missCount] == free[..plan.missCount]
            && Stepped(row, req, maxToken).order == free[plan.missCount..] + free[..plan.missCount] + found
  {
    var q, r := QueryOf(req, maxToken), Claim(row, req.id);
    ClaimSound(row, req.id, maxToken);
    ScanIsFound(row, req, maxToken);
    ScanSplits(r, q);
    hide Slots, Encoded, CurrentSlot, MissedTokens, NextTokens, Evictable, Hits, Misses, Filter, QueryOf, Live,
         FoundTest, FreeTest;
    assert |r.order| == |r.tokens|;
  }

  // ----- the newest token

  /** The slot reported for the newest token is one given to a position that selects it, or the
      reserved one, and that exactly when no such position got a slot. */
  lemma NewestPlace(row: Row, req: Request, maxToken: int)
    requires RowSound(row, maxToken)
    ensures var plan := Planned(row, req, maxToken);
            && 0 <= plan.currentSlot <= |row.tokens|
            && (plan.currentSlot < |row.tokens| <==>
                exists p :: 0 <= p < |req.topk| && req.topk[p] == Newest(req, maxToken) && plan.slots[p] >= 0)
            && (plan.currentSlot < |row.tokens| ==>
                 exists p :: 0 <= p < |req.topk| && req.topk[p] == Newest(req, maxToken)
                             && plan.slots[p] == plan.currentSlot)
  {
    var q, r := QueryOf(req, maxToken), Claim(row, req.id);
    ClaimSound(row, req.id, maxToken);
    CurrentSlotHolds(r, q);
    hide Slots, Encoded, CurrentSlot, MissedTokens, NextTokens, Evictable, Claim;
    forall p | 0 <= p < |req.topk| && Slots(r, q)[p] >= 0
      ensures Shown(q, q.topk[p]) && (IsCurrent(q, q.topk[p]) <==> q.topk[p] == Newest(req, maxToken))
    {
      SlotHoldsToken(r, q, p);
      BoundsOf(req, maxToken, q.topk[p]);
    }
    if CurrentSlot(r, q) < |row.tokens| {
      var p :| 0 <= p < |q.topk| && IsCurrent(q, q.topk[p]) && Slots(r, q)[p] == CurrentSlot(r, q);
    }
  }

  // ----- what the laws of runs speak of, read off the plan

  /** A slot hits with t exactly if a position that selects t is given it and it held t; it is refilled
      with t exactly if such a position is given it and it did not. */
  lemma GivenFor(row: Row, q: Query, t: int, s: int)
    requires Ordered(row) && Unique(row.tokens) && 0 <= s < |row.tokens|
    ensures HitsWith(row, q, t, s) <==>
              Live(row, q)[s] == t && exists p :: 0 <= p < |q.topk| && q.topk[p] == t && Slots(row, q)[p] == s
    ensures Places(row, q, t, s) <==>
              Live(row, q)[s] != t && exists p :: 0 <= p < |q.topk| && q.topk[p] == t && Slots(row, q)[p] == s
  {
    hide Live, Located, Slots, Encoded, Misses, Evictable, NextTokens, Assigned, FirstPosition;
    ScanSplits(row, q);
    Tables(row, q);
    Positions(row, q);
    if IsHit(Live(row, q), q, s) { HitIsLocated(row, q, s); HitToken(row, q, s); }
    if p :| 0 <= p < |q.topk| && q.topk[p] == t && Slots(row, q)[p] == s { GivenCase(row, q, p); }
    if Places(row, q, t, s) { PlacedFor(row, q, t, s); }
  }

  lemma HitToken(row: Row, q: Query, s: int)
    requires Ordered(row) && 0 <= s < |row.tokens| && IsHit(Live(row, q), q, s)
    ensures forall p :: 0 <= p < |q.topk| && Slots(row, q)[p] == s ==> q.topk[p] == Live(row, q)[s]
  {
    hide Live, Slots, Encoded, NextTokens;
    HitsKept(row, q, s);
    forall p | 0 <= p < |q.topk| && Slots(row, q)[p] == s ensures q.topk[p] == Live(row, q)[s] {
      SlotHoldsToken(row, q, p);
    }
  }

  /** A position with a slot hits there or refills it. */
  lemma GivenCase(row: Row, q: Query, p: nat)
    requires Ordered(row) && p < |q.topk| && Slots(row, q)[p] >= 0
    ensures var s, t := Slots(row, q)[p], q.topk[p];
            0 <= s < |row.tokens| && if Live(row, q)[s] == t then HitsWith(row, q, t, s) else Places(row, q, t, s)
  {
    hide Live, Located, Slots, Encoded, Misses, Evictable, NextTokens, Assigned, FirstPosition;
    SlotHoldsToken(row, q, p);
    ScanSplits(row, q);
    LocatedMeaning(row, q, p);
    var i := SlotCases(row, q, p);
    if i >= 0 {
      MissSlots(row, q, i);
      assert Evictable(row, q)[i] in Evictable(row, q);
    }
  }

  lemma PlacedFor(row: Row, q: Query, t: int, s: int)
    requires Ordered(row) && Places(row, q, t, s) && 0 <= s < |row.tokens|
    ensures Live(row, q)[s] != t && exists p :: 0 <= p < |q.topk| && q.topk[p] == t && Slots(row, q)[p] == s
  {
    hide Live, Located, Slots, Encoded, Misses, Evictable, NextTokens, Assigned, FirstPosition;
    ScanSplits(row, q);
    var i :| 0 <= i < Assigned(row, q) && Evictable(row, q)[i] == s && MissedTokens(row, q)[i] == t;
    MissSlots(row, q, i);
    assert Evictable(row, q)[i] in Evictable(row, q);
    var p := Misses(row, q)[i];
    SlotHoldsToken(row, q, p);
    assert q.topk[p] == t && Slots(row, q)[p] == s;
  }

  /** A slot is used exactly if some position is given it, and a victim exactly if it is refilled. */
  lemma UsedExactly(row: Row, q: Query, s: int)
    requires Ordered(row) && Unique(row.tokens) && 0 <= s < |row.tokens|
    ensures Uses(row, q, s) <==> s in Slots(row, q)
    ensures Evicts(row, q, s) <==> exists t :: Places(row, q, t, s)
  {
    hide Live, Located, Slots, Encoded, Misses, NextTokens, Assigned, FirstPosition;
    ScanSplits(row, q);
    if IsHit(Live(row, q), q, s) { HitIsLocated(row, q, s); }
    if Evicts(row, q, s) {
      var i :| 0 <= i < Assigned(row, q) && Evictable(row, q)[..Assigned(row, q)][i] == s;
      assert Places(row, q, MissedTokens(row, q)[i], s);
      PlacedFor(row, q, MissedTokens(row, q)[i], s);
    }
    if p :| 0 <= p < |q.topk| && Slots(row, q)[p] == s { GivenCase(row, q, p); }
    if t :| Places(row, q, t, s) {
      var i :| 0 <= i < Assigned(row, q) && Evictable(row, q)[i] == s && MissedTokens(row, q)[i] == t;
      assert Evictable(row, q)[..Assigned(row, q)][i] == s;
    }
  }
}
