/** What one planning step guarantees, for every row and every query. */
module ResidentLaws {
  import opened Lists
  import opened Resident

  ghost predicate Ordered(row: Row) {
    IsPermutation(row.order, |row.tokens|)
  }

  ghost predicate TokensValid(row: Row, maxToken: int) {
    forall s :: 0 <= s < |row.tokens| ==> row.tokens[s] == -1 || 0 <= row.tokens[s] < maxToken
  }

  /** No token is resident twice. */
  ghost predicate Unique(tokens: seq<int>) {
    forall s, u :: 0 <= s < u < |tokens| && tokens[s] == tokens[u] ==> tokens[s] < 0
  }

  ghost predicate RowValid(row: Row, maxToken: int) {
    Ordered(row) && TokensValid(row, maxToken) && Unique(row.tokens)
  }

  /** No shown token is asked for twice. */
  ghost predicate Distinct(q: Query) {
    forall i, j :: 0 <= i < j < |q.topk| && Shown(q, q.topk[i]) && Shown(q, q.topk[j]) ==> q.topk[i] != q.topk[j]
  }

  function ShownTest(q: Query): int -> bool {
    p => 0 <= p < |q.topk| && Shown(q, q.topk[p])
  }

  function ShownCount(q: Query): nat { |Filter(ShownTest(q), Iota(|q.topk|))| }

  // ----- how a scan splits the slots

  lemma ScanSplits(row: Row, q: Query)
    requires Ordered(row)
    ensures NoDup(Hits(row, q)) && NoDup(Evictable(row, q))
    ensures |Hits(row, q)| + |Evictable(row, q)| == |row.tokens|
    ensures multiset(Hits(row, q)) + multiset(Evictable(row, q)) == multiset(row.order)
    ensures forall s :: s in Hits(row, q) <==> IsHit(Live(row, q), q, s)
    ensures forall s :: s in Evictable(row, q) <==> 0 <= s < |row.tokens| && !IsHit(Live(row, q), q, s)
  {
    var live := Live(row, q);
    var hit, evict := HitTest(live, q), EvictTest(live, q);
    FilterSplits(hit, evict, row.order);
    FilterMember(hit, row.order);
    FilterMember(evict, row.order);
    FilterNoDup(hit, row.order);
    FilterNoDup(evict, row.order);
    PermutationOnto(row.order, |row.tokens|);
  }

  lemma MissesNoDup(row: Row, q: Query)
    ensures NoDup(Misses(row, q))
    ensures forall p :: p in Misses(row, q) <==> MissTest(row, q)(p)
  {
    FilterNoDup(MissTest(row, q), Iota(|q.topk|));
    FilterMember(MissTest(row, q), Iota(|q.topk|));
    forall p | MissTest(row, q)(p) ensures p in Iota(|q.topk|) { assert Iota(|q.topk|)[p] == p; }
  }

  lemma {:induction false} LocatedComplete(order: seq<int>, live: seq<int>, q: Query, s: int)
    requires s in order && IsHit(live, q, s)
    ensures LocatedIn(order, live, q, FirstPosition(q.topk, live[s])) >= 0
  {
    if s != order[|order| - 1] {
      LocatedComplete(order[..|order| - 1], live, q, s);
    }
  }

  lemma LocatedMeaning(row: Row, q: Query, pos: int)
    requires Ordered(row)
    ensures Located(row, q, pos) >= 0 ==>
              IsHit(Live(row, q), q, Located(row, q, pos))
              && 0 <= pos < |q.topk| && Live(row, q)[Located(row, q, pos)] == q.topk[pos]
              && FirstPosition(q.topk, q.topk[pos]) == pos
    ensures forall s :: IsHit(Live(row, q), q, s) ==> Located(row, q, FirstPosition(q.topk, Live(row, q)[s])) >= 0
    ensures Located(row, q, pos) >= -1
  {
    PermutationOnto(row.order, |row.tokens|);
    forall s | IsHit(Live(row, q), q, s)
      ensures Located(row, q, FirstPosition(q.topk, Live(row, q)[s])) >= 0
    {
      LocatedComplete(row.order, Live(row, q), q, s);
    }
  }

  // ----- the slot table and the tokens after the step

  /** The four cases of a position and of a slot, read off the scattered tables. */
  lemma Tables(row: Row, q: Query)
    requires Ordered(row)
    ensures forall i :: 0 <= i < Assigned(row, q) ==>
              && 0 <= Misses(row, q)[i] < |q.topk| && 0 <= Evictable(row, q)[i] < |row.tokens|
              && Slots(row, q)[Misses(row, q)[i]] == Evictable(row, q)[i]
              && NextTokens(row, q)[Evictable(row, q)[i]] == q.topk[Misses(row, q)[i]]
              && Encoded(row, q)[Misses(row, q)[i]] == MissCodes(row, q)[i]
    ensures forall p :: 0 <= p < |q.topk| && p !in Misses(row, q)[..Assigned(row, q)] ==>
              Slots(row, q)[p] == Located(row, q, p) && Encoded(row, q)[p] == Located(row, q, p) + 1
    ensures forall s :: 0 <= s < |row.tokens| && s !in Evictable(row, q)[..Assigned(row, q)] ==>
              NextTokens(row, q)[s] == Live(row, q)[s]
  {
    hide Live, LocatedIn, Filter, Hits, Evictable, Misses, IsHit, Assigned, MissCode;
    var n := Assigned(row, q);
    Positions(row, q);
    MissesNoDup(row, q);
    ScanSplits(row, q);
    ScatterReads(Live(row, q), Evictable(row, q), MissedTokens(row, q), n);
    ScatterReads(LocatedTable(row.order, Live(row, q), q), Misses(row, q), Evictable(row, q), n);
    ScatterReads(HitCodes(LocatedTable(row.order, Live(row, q), q)), Misses(row, q), MissCodes(row, q), n);
  }

  /** A position has a slot exactly when it hits or is among the assigned misses. */
  lemma SlotCases(row: Row, q: Query, p: int) returns (i: int)
    requires Ordered(row) && 0 <= p < |q.topk|
    ensures i >= 0 ==> i < Assigned(row, q) && Misses(row, q)[i] == p && Slots(row, q)[p] == Evictable(row, q)[i]
    ensures i < 0 ==> p !in Misses(row, q)[..Assigned(row, q)] && Slots(row, q)[p] == Located(row, q, p)
  {
    Tables(row, q);
    if p in Misses(row, q)[..Assigned(row, q)] {
      i :| 0 <= i < Assigned(row, q) && Misses(row, q)[..Assigned(row, q)][i] == p;
    } else {
      i := -1;
    }
  }

  /** Every slot handed out holds, after the step, the token it was handed out for. */
  lemma SlotHoldsToken(row: Row, q: Query, p: int)
    requires Ordered(row) && 0 <= p < |q.topk| && Slots(row, q)[p] >= 0
    ensures Shown(q, q.topk[p])
    ensures 0 <= Slots(row, q)[p] < |row.tokens|
    ensures NextTokens(row, q)[Slots(row, q)[p]] == q.topk[p]
  {
    hide Live, NextTokens, Slots, Encoded, Evictable, Misses, Assigned, Located;
    var i := SlotCases(row, q, p);
    Tables(row, q);
    Positions(row, q);
    LocatedMeaning(row, q, p);
    if i < 0 {
      HitsKept(row, q, Slots(row, q)[p]);
    }
  }

  /** No slot hit in this step is evicted in it. */
  lemma HitsKept(row: Row, q: Query, s: int)
    requires Ordered(row) && IsHit(Live(row, q), q, s)
    ensures s !in Evictable(row, q)[..Assigned(row, q)]
    ensures NextTokens(row, q)[s] == Live(row, q)[s] == row.tokens[s]
  {
    ScanSplits(row, q);
    Tables(row, q);
    assert s !in Evictable(row, q);
  }

  /** Different positions never share a slot, even when the query repeats a token. */
  lemma SlotsDistinct(row: Row, q: Query, p: int, r: int)
    requires Ordered(row) && 0 <= p < r < |q.topk| && Slots(row, q)[p] >= 0 && Slots(row, q)[r] >= 0
    ensures Slots(row, q)[p] != Slots(row, q)[r]
  {
    hide Live, NextTokens, Slots, Encoded, Evictable, Misses, Assigned, Located, Hits;
    var i := SlotCases(row, q, p);
    var j := SlotCases(row, q, r);
    ScanSplits(row, q);
    MissesNoDup(row, q);
    LocatedMeaning(row, q, p);
    LocatedMeaning(row, q, r);
    if i >= 0 { assert Evictable(row, q)[i] in Evictable(row, q); }
    if j >= 0 { assert Evictable(row, q)[j] in Evictable(row, q); }
  }

  // ----- no miss is dropped

  function HitPosition(live: seq<int>, q: Query, s: int): int {
    if IsHit(live, q, s) then FirstPosition(q.topk, live[s]) else -1
  }

  lemma LiveUnique(row: Row, q: Query)
    requires Unique(row.tokens)
    ensures Unique(Live(row, q))
  {
  }

  /** Hits and misses together are the shown positions. */
  lemma HitsAndMisses(row: Row, q: Query)
    requires Ordered(row) && Unique(row.tokens)
    ensures |Hits(row, q)| + |Misses(row, q)| == ShownCount(q)
  {
    hide Live, Located, Filter, Assigned;
    var live, hits := Live(row, q), Hits(row, q);
    ScanSplits(row, q);
    MissesNoDup(row, q);
    LiveUnique(row, q);
    Positions(row, q);
    var at := seq(|hits|, i requires 0 <= i < |hits| => HitPosition(live, q, hits[i]));
    var shown := Filter(ShownTest(q), Iota(|q.topk|));
    FilterNoDup(ShownTest(q), Iota(|q.topk|));
    FilterMember(ShownTest(q), Iota(|q.topk|));
    var all := at + Misses(row, q);
    forall p ensures p in all <==> p in shown {
      LocatedMeaning(row, q, p);
      if p in shown && p !in Misses(row, q) {
        var s := Located(row, q, p);
        assert s in hits;
        var i :| 0 <= i < |hits| && hits[i] == s;
        assert at[i] == p;
      }
      if p in at {
        var i :| 0 <= i < |at| && at[i] == p;
        assert q.topk[p] == live[hits[i]];
        assert p in Iota(|q.topk|) by { assert Iota(|q.topk|)[p] == p; }
      }
      if p in Misses(row, q) {
        assert p in Iota(|q.topk|) by { assert Iota(|q.topk|)[p] == p; }
      }
    }
    assert NoDup(at) by {
      forall i, j | 0 <= i < j < |at| ensures at[i] != at[j] {
        assert hits[i] != hits[j];
        assert live[hits[i]] != live[hits[j]];
      }
    }
    assert NoDup(all) by {
      forall i | 0 <= i < |at| ensures at[i] !in Misses(row, q) {
        LocatedMeaning(row, q, at[i]);
      }
    }
    NoDupSameLength(all, shown);
  }

  /** No shown position goes without a slot exactly when the slots can hold all of them. */
  lemma NoMissDropped(row: Row, q: Query)
    requires Ordered(row) && Unique(row.tokens)
    ensures (forall p :: 0 <= p < |q.topk| && Shown(q, q.topk[p]) ==> Slots(row, q)[p] >= 0)
            <==> ShownCount(q) <= |row.tokens|
  {
    hide Live, NextTokens, Slots, Encoded, Evictable, Hits, Located, ShownCount;
    var n, misses := Assigned(row, q), Misses(row, q);
    HitsAndMisses(row, q);
    ScanSplits(row, q);
    MissesNoDup(row, q);
    Tables(row, q);
    if ShownCount(q) <= |row.tokens| {
      assert misses[..n] == misses;
      forall p | 0 <= p < |q.topk| && Shown(q, q.topk[p]) ensures Slots(row, q)[p] >= 0 {
        var i := SlotCases(row, q, p);
        if i < 0 { assert !MissTest(row, q)(p); }
      }
    } else {
      var p := misses[n];
      assert p in misses;
      assert p !in misses[..n];
      assert Slots(row, q)[p] < 0;
    }
  }

  // ----- the row invariant

  lemma OrderKept(row: Row, q: Query)
    requires Ordered(row)
    ensures IsPermutation(NextOrder(row, q), |row.tokens|)
  {
    var evictable, hits, n := Evictable(row, q), Hits(row, q), Assigned(row, q);
    ScanSplits(row, q);
    assert evictable == evictable[..n] + evictable[n..];
    assert multiset(NextOrder(row, q)) == multiset(row.order);
    PermutationByMultiset(row.order, NextOrder(row, q), |row.tokens|);
  }

  lemma TokensKeptValid(row: Row, q: Query)
    requires Ordered(row) && TokensValid(row, q.maxToken)
    ensures forall s :: 0 <= s < |row.tokens| ==> NextTokens(row, q)[s] == -1 || 0 <= NextTokens(row, q)[s] < q.maxToken
  {
    hide NextTokens, Slots, Encoded, Located, MissCodes, Misses, Evictable, Assigned;
    Tables(row, q);
    Positions(row, q);
    forall s | 0 <= s < |row.tokens|
      ensures NextTokens(row, q)[s] == -1 || 0 <= NextTokens(row, q)[s] < q.maxToken
    {
      if s in Evictable(row, q)[..Assigned(row, q)] {
        var i :| 0 <= i < Assigned(row, q) && Evictable(row, q)[..Assigned(row, q)][i] == s;
      }
    }
  }

  /** Position j asks again for a token shown earlier. */
  ghost predicate Repeats(q: Query, j: int) {
    0 <= j < |q.topk| && Shown(q, q.topk[j]) && exists i :: 0 <= i < j && q.topk[i] == q.topk[j]
  }

  /** A token that a miss brings in was resident nowhere, unless the position repeats it. */
  lemma MissNotResident(row: Row, q: Query, i: int, s: int)
    requires Ordered(row) && 0 <= i < |Misses(row, q)| && !Repeats(q, Misses(row, q)[i]) && 0 <= s < |row.tokens|
    ensures 0 <= Misses(row, q)[i] < |q.topk| && Live(row, q)[s] != q.topk[Misses(row, q)[i]]
  {
    var p := Misses(row, q)[i];
    Positions(row, q);
    LocatedMeaning(row, q, p);
    assert FirstPosition(q.topk, q.topk[p]) == p;
    assert Live(row, q)[s] == q.topk[p] ==> IsHit(Live(row, q), q, s);
  }

  /** If no position that repeats a token gets a slot, no token becomes resident twice. */
  lemma UnservedKeepsUnique(row: Row, q: Query)
    requires Ordered(row) && Unique(row.tokens)
    requires forall j :: Repeats(q, j) ==> j !in Misses(row, q)[..Assigned(row, q)]
    ensures Unique(NextTokens(row, q))
  {
    hide Live, NextTokens, Evictable, Misses, Assigned, Located, Slots, Encoded, MissCodes;
    var tokens, evictable, misses, n := NextTokens(row, q), Evictable(row, q), Misses(row, q), Assigned(row, q);
    Tables(row, q);
    Positions(row, q);
    MissesNoDup(row, q);
    LiveUnique(row, q);
    forall i | 0 <= i < n ensures !Repeats(q, misses[i]) { assert misses[..n][i] == misses[i]; }
    forall s, u | 0 <= s < u < |tokens| ensures tokens[s] == tokens[u] ==> tokens[s] < 0 {
      if s in evictable[..n] {
        var i :| 0 <= i < n && evictable[..n][i] == s;
        if u in evictable[..n] {
          var j :| 0 <= j < n && evictable[..n][j] == u;
          assert misses[i] != misses[j];
        } else {
          MissNotResident(row, q, i, u);
        }
      } else if u in evictable[..n] {
        var j :| 0 <= j < n && evictable[..n][j] == u;
        MissNotResident(row, q, j, s);
      }
    }
  }

  lemma DistinctKeepsUnique(row: Row, q: Query)
    requires Ordered(row) && Unique(row.tokens) && Distinct(q)
    ensures Unique(NextTokens(row, q))
  {
    hide NextTokens, Misses, Assigned;
    UnservedKeepsUnique(row, q);
  }

  // ----- when exactly tokens stay unique

  /** Position p is the first to ask for a token that is resident below the stable prefix. */
  predicate Reuses(row: Row, q: Query, p: int) {
    && 0 <= p < |q.topk| && Shown(q, q.topk[p]) && q.topk[p] in Live(row, q)
    && FirstPosition(q.topk, q.topk[p]) == p
  }

  function ReuseTest(row: Row, q: Query): int -> bool { p => Reuses(row, q, p) }

  function ShownBefore(q: Query, j: nat): nat
    requires j <= |q.topk|
  {
    |Filter(ShownTest(q), Iota(|q.topk|)[..j])|
  }

  function ReusedAfter(row: Row, q: Query, j: nat): nat
    requires j < |q.topk|
  {
    |Filter(ReuseTest(row, q), Iota(|q.topk|)[j + 1..])|
  }

  lemma ReusesIsLocated(row: Row, q: Query, p: int)
    requires Ordered(row)
    ensures Reuses(row, q, p) <==> Located(row, q, p) >= 0
  {
    hide Located, FirstPosition;
    LocatedMeaning(row, q, p);
    if Reuses(row, q, p) {
      var s :| 0 <= s < |Live(row, q)| && Live(row, q)[s] == q.topk[p];
      assert IsHit(Live(row, q), q, s);
    }
  }

  /** Every shown position of a run of positions is either reused or missed. */
  lemma ShownSplits(row: Row, q: Query, a: nat, b: nat)
    requires Ordered(row) && a <= b <= |q.topk|
    ensures var s := Iota(|q.topk|)[a..b];
            |Filter(ShownTest(q), s)| == |Filter(ReuseTest(row, q), s)| + |Filter(MissTest(row, q), s)|
  {
    hide Filter, Located, Reuses;
    var s := Iota(|q.topk|)[a..b];
    forall i | 0 <= i < |s|
      ensures (ShownTest(q)(s[i]) <==> ReuseTest(row, q)(s[i]) || MissTest(row, q)(s[i]))
              && !(ReuseTest(row, q)(s[i]) && MissTest(row, q)(s[i]))
    {
      ReusesIsLocated(row, q, s[i]);
      LocatedMeaning(row, q, s[i]);
    }
    FilterCounts(ReuseTest(row, q), MissTest(row, q), ShownTest(q), s);
  }

  /** A repeated position is served exactly when the positions shown before it and the ones reused
      after it leave a slot over. */
  lemma RepeatServed(row: Row, q: Query, j: nat)
    requires Ordered(row) && Unique(row.tokens) && Repeats(q, j)
    ensures j in Misses(row, q)[..Assigned(row, q)] <==> ShownBefore(q, j) + ReusedAfter(row, q, j) < |row.tokens|
  {
    hide Filter, Located, Hits, Evictable, FirstPosition;
    var all, miss, reuse := Iota(|q.topk|), MissTest(row, q), ReuseTest(row, q);
    ReusesIsLocated(row, q, j);
    LocatedMeaning(row, q, j);
    assert all[j] == j && miss(j) && !reuse(j);
    FilterIndex(miss, all, j);
    MissesNoDup(row, q);
    ShownSplits(row, q, 0, j);
    assert all[0..j] == all[..j];
    ShownSplits(row, q, 0, |q.topk|);
    assert all[0..|q.topk|] == all;
    HitsAndMisses(row, q);
    FilterStep(reuse, all, j);
    FilterJoin(reuse, all[..j + 1], all[j + 1..]);
    assert all[..j + 1] + all[j + 1..] == all;
    ScanSplits(row, q);
    IndexBelow(Misses(row, q), |Filter(miss, all[..j])|, Assigned(row, q));
  }

  /** Misses are served in position order. */
  lemma EarlierServed(row: Row, q: Query, i: nat, j: nat)
    requires i < j < |q.topk| && MissTest(row, q)(i) && j in Misses(row, q)[..Assigned(row, q)]
    ensures i in Misses(row, q)[..Assigned(row, q)]
  {
    hide Filter, MissTest, Assigned;
    MissesNoDup(row, q);
    assert j in Misses(row, q);
    FilterPrefix(MissTest(row, q), Iota(|q.topk|), i, j, Assigned(row, q));
  }

  lemma ServedHasSlot(row: Row, q: Query, p: nat)
    requires Ordered(row) && p < |q.topk| && (Located(row, q, p) >= 0 || p in Misses(row, q)[..Assigned(row, q)])
    ensures Slots(row, q)[p] >= 0
  {
    hide Located, Slots, Misses, Assigned, Evictable;
    var i := SlotCases(row, q, p);
    Positions(row, q);
  }

  /** A served repeat leaves its token resident twice. */
  lemma ServedRepeat(row: Row, q: Query, j: nat)
    requires Ordered(row) && Repeats(q, j) && j in Misses(row, q)[..Assigned(row, q)]
    ensures !Unique(NextTokens(row, q))
  {
    hide Located, NextTokens, Slots, Misses, Assigned;
    var i :| 0 <= i < j && q.topk[i] == q.topk[j];
    if Located(row, q, i) < 0 { EarlierServed(row, q, i, j); }
    ServedHasSlot(row, q, i);
    ServedHasSlot(row, q, j);
    SlotHoldsToken(row, q, i);
    SlotHoldsToken(row, q, j);
    SlotsDistinct(row, q, i, j);
  }

  /** A step keeps tokens unique exactly when every repeated position comes too late to get a slot:
      those shown before it and those reused after it already take them all. */
  lemma UniqueExactly(row: Row, q: Query)
    requires Ordered(row) && Unique(row.tokens)
    ensures Unique(NextTokens(row, q))
            <==> forall j :: Repeats(q, j) ==> ShownBefore(q, j) + ReusedAfter(row, q, j) >= |row.tokens|
  {
    hide Filter, NextTokens, Misses, ShownBefore, ReusedAfter;
    if j :| Repeats(q, j) && ShownBefore(q, j) + ReusedAfter(row, q, j) < |row.tokens| {
      RepeatServed(row, q, j);
      ServedRepeat(row, q, j);
    } else {
      forall j | Repeats(q, j) ensures j !in Misses(row, q)[..Assigned(row, q)] { RepeatServed(row, q, j); }
      UnservedKeepsUnique(row, q);
    }
  }

  /** An empty row with two slots, asked twice for token 0, holds it twice. */
  lemma RepeatedResident()
    ensures var q := Query([0, 0], 1, 1, 1);
            Repeats(q, 1) && NextTokens(FreshRow(7, 2), q) == [0, 0] && !Unique(NextTokens(FreshRow(7, 2), q))
  {
    var row, q := FreshRow(7, 2), Query([0, 0], 1, 1, 1);
    assert q.topk[0] == q.topk[1];
    FreshRowValid(7, 2, 1);
    assert Live(row, q) == [-1, -1];
    NoMissDropped(row, q);
    assert ShownCount(q) <= 2;
    SlotHoldsToken(row, q, 0);
    SlotHoldsToken(row, q, 1);
    SlotsDistinct(row, q, 0, 1);
  }

  lemma FreshRowValid(owner: int, capacity: nat, maxToken: int)
    ensures RowValid(FreshRow(owner, capacity), maxToken)
  {
  }

  /** The step invariant, including the reset when the row changes hands. */
  lemma StepKeepsRow(row: Row, id: int, q: Query)
    requires RowValid(row, q.maxToken) && Distinct(q)
    ensures RowValid(NextRow(row, id, q), q.maxToken)
    ensures |NextRow(row, id, q).tokens| == |row.tokens|
  {
    hide NextTokens, NextOrder, Distinct, Unique, Live;
    var r := Claim(row, id);
    FreshRowValid(id, |row.tokens|, q.maxToken);
    OrderKept(r, q);
    TokensKeptValid(r, q);
    DistinctKeepsUnique(r, q);
  }

  lemma StepOrdered(row: Row, id: int, q: Query)
    requires Ordered(row)
    ensures Ordered(Claim(row, id)) && Ordered(NextRow(row, id, q))
  {
    FreshRowValid(id, |row.tokens|, q.maxToken);
    OrderKept(Claim(row, id), q);
  }

  lemma StepTokensValid(row: Row, id: int, q: Query)
    requires Ordered(row) && TokensValid(row, q.maxToken)
    ensures TokensValid(NextRow(row, id, q), q.maxToken)
  {
    StepOrdered(row, id, q);
    TokensKeptValid(Claim(row, id), q);
  }

  // ----- what a step does with one slot

  ghost predicate Places(row: Row, q: Query, t: int, s: int) {
    exists i :: 0 <= i < Assigned(row, q) && Evictable(row, q)[i] == s && MissedTokens(row, q)[i] == t
  }

  ghost predicate Evicts(row: Row, q: Query, s: int) {
    s in Evictable(row, q)[..Assigned(row, q)]
  }

  ghost predicate HitsWith(row: Row, q: Query, t: int, s: int) {
    IsHit(Live(row, q), q, s) && Live(row, q)[s] == t
  }

  ghost predicate Survives(row: Row, q: Query, t: int, s: int) {
    0 <= s < |row.tokens| && Live(row, q)[s] == t
  }

  ghost predicate Uses(row: Row, q: Query, s: int) {
    s in Hits(row, q) || Evicts(row, q, s)
  }

  lemma TokenOrigin(row: Row, q: Query, s: int)
    requires Ordered(row) && 0 <= s < |row.tokens|
    ensures Places(row, q, NextTokens(row, q)[s], s)
            || (Survives(row, q, NextTokens(row, q)[s], s) && !Evicts(row, q, s))
  {
    Tables(row, q);
    if Evicts(row, q, s) {
      var i :| 0 <= i < Assigned(row, q) && Evictable(row, q)[..Assigned(row, q)][i] == s;
    }
  }

  lemma SurvivorsStable(row: Row, id: int, q: Query, t: int, s: int)
    requires Ordered(row) && TokensValid(row, q.maxToken)
    requires t >= 0 && Survives(Claim(row, id), q, t, s)
    ensures row.owner == id && row.tokens[s] == t < q.stable
  {
    PermutationOnto(row.order, |row.tokens|);
  }

  // ----- the order by last use

  /** If the order was sorted by `before`, it is sorted again once the used slots are dated `now`. */
  lemma StepSorted(row: Row, q: Query, before: int -> int, after: int -> int, now: int)
    requires Ordered(row) && SortedBy(row.order, before)
    requires forall s :: before(s) <= now
    requires forall s :: 0 <= s < |row.tokens| ==> after(s) == if Uses(row, q, s) then now else before(s)
    ensures SortedBy(NextOrder(row, q), after)
  {
    var e, h, n := Evictable(row, q), Hits(row, q), Assigned(row, q);
    ScanSplits(row, q);
    FilterSorted(EvictTest(Live(row, q), q), row.order, before);
    var order := NextOrder(row, q);
    assert order == e[n..] + e[..n] + h;
    forall i | 0 <= i < |order|
      ensures if i < |e| - n then after(order[i]) == before(e[n + i]) else after(order[i]) == now
    {
      if i < |e| - n {
        assert order[i] == e[n + i];
        assert e[n + i] in e && e[n + i] !in e[..n];
      } else if i < |e| {
        assert order[i] == e[..n][i - (|e| - n)];
        assert order[i] in e[..n] && order[i] in e;
      } else {
        assert order[i] == h[i - |e|];
        assert order[i] in h;
      }
    }
  }

  lemma VictimsFirst(row: Row, q: Query, before: int -> int, victim: int, kept: int)
    requires Ordered(row) && SortedBy(row.order, before)
    requires Evicts(row, q, victim) && 0 <= kept < |row.tokens| && !Uses(row, q, kept)
    ensures before(victim) <= before(kept)
  {
    var e, n := Evictable(row, q), Assigned(row, q);
    ScanSplits(row, q);
    FilterSorted(EvictTest(Live(row, q), q), row.order, before);
    var i :| 0 <= i < n && e[..n][i] == victim;
    var j :| 0 <= j < |e| && e[j] == kept;
    assert forall m :: 0 <= m < n ==> e[..n][m] != kept;
  }

  // ----- the encoded plan

  /** The plan decodes to the slot table, and its sign says whether the slot needs a copy:
      it did not hold the token and the token is not the one produced on the device. */
  lemma PlanDecodes(row: Row, q: Query, p: int)
    requires Ordered(row) && 0 <= p < |q.topk|
    ensures var v, s := Encoded(row, q)[p], Slots(row, q)[p];
            && (v == 0 <==> s == -1)
            && (v != 0 ==> 0 <= s < |row.tokens| && s == (if v < 0 then -v else v) - 1)
            && (v < 0 <==> s >= 0 && Live(row, q)[s] != q.topk[p] && !IsCurrent(q, q.topk[p]))
  {
    var i := SlotCases(row, q, p);
    Tables(row, q);
    Positions(row, q);
    LocatedMeaning(row, q, p);
    if i >= 0 {
      assert MissTest(row, q)(p);
      var s := Evictable(row, q)[i];
      assert !IsHit(Live(row, q), q, s);
      assert q.topk[p] in q.topk;
    }
  }

  // ----- the current token

  lemma {:induction false} CurrentAfterMeaning(row: Row, q: Query, n: nat)
    requires Ordered(row) && n <= Assigned(row, q)
    ensures CurrentAfter(row, q, n) == CurrentHit(row.order, Live(row, q), q)
            || exists i :: 0 <= i < n && IsCurrent(q, MissedTokens(row, q)[i])
                && CurrentAfter(row, q, n) == Evictable(row, q)[i]
    ensures (exists i :: 0 <= i < n && IsCurrent(q, MissedTokens(row, q)[i])) ==>
              exists i :: 0 <= i < n && IsCurrent(q, MissedTokens(row, q)[i])
                  && CurrentAfter(row, q, n) == Evictable(row, q)[i]
  {
    hide Live, Evictable, MissedTokens, CurrentHit, Assigned, Filter;
    if n > 0 { CurrentAfterMeaning(row, q, n - 1); }
  }

  /** The current-token slot holds the current token after the step; without a slot for it,
      it is the reserved slot, which no order ever lists. */
  lemma CurrentSlotHolds(row: Row, q: Query)
    requires Ordered(row)
    ensures 0 <= CurrentSlot(row, q) <= |row.tokens|
    ensures CurrentSlot(row, q) < |row.tokens| ==> NextTokens(row, q)[CurrentSlot(row, q)] == q.visible - 1
    ensures CurrentSlot(row, q) == |row.tokens| <==>
              forall p :: 0 <= p < |q.topk| && Shown(q, q.topk[p]) && IsCurrent(q, q.topk[p]) ==> Slots(row, q)[p] == -1
    ensures CurrentSlot(row, q) < |row.tokens| ==>
              exists p :: 0 <= p < |q.topk| && IsCurrent(q, q.topk[p]) && Slots(row, q)[p] == CurrentSlot(row, q)
  {
    var n := Assigned(row, q);
    Tables(row, q);
    Positions(row, q);
    CurrentAfterMeaning(row, q, n);
    if i :| 0 <= i < n && IsCurrent(q, MissedTokens(row, q)[i]) && CurrentSlot(row, q) == Evictable(row, q)[i] {
      var p := Misses(row, q)[i];
      assert IsCurrent(q, q.topk[p]) && Slots(row, q)[p] == CurrentSlot(row, q);
    } else {
      CurrentByHit(row, q);
    }
  }

  lemma CurrentByHit(row: Row, q: Query)
    requires Ordered(row)
    requires forall i :: 0 <= i < Assigned(row, q) ==> !IsCurrent(q, MissedTokens(row, q)[i])
    ensures var c := CurrentHit(row.order, Live(row, q), q);
            && 0 <= c <= |row.tokens|
            && (c < |row.tokens| ==> NextTokens(row, q)[c] == q.visible - 1)
            && (c < |row.tokens| ==> exists p :: 0 <= p < |q.topk| && IsCurrent(q, q.topk[p]) && Slots(row, q)[p] == c)
            && (c == |row.tokens| ==>
                 forall p :: 0 <= p < |q.topk| && Shown(q, q.topk[p]) && IsCurrent(q, q.topk[p]) ==>
                       Slots(row, q)[p] == -1)
  {
    hide Live, NextTokens, Evictable, Misses, Slots, Encoded, LocatedIn, Filter;
    var t := q.visible - 1;
    if Wanted(q, t) {
      var first := FirstPosition(q.topk, t);
      var s := Located(row, q, first);
      LocatedMeaning(row, q, first);
      if s >= 0 {
        HitsKept(row, q, s);
        var i := SlotCases(row, q, first);
        if i >= 0 {
          Positions(row, q);
          assert MissTest(row, q)(first);
        }
      }
      forall p | 0 <= p < |q.topk| ensures s < 0 && IsCurrent(q, q.topk[p]) ==> Slots(row, q)[p] == -1 {
        var i := SlotCases(row, q, p);
        LocatedMeaning(row, q, p);
        assert i >= 0 ==> MissedTokens(row, q)[i] == q.topk[p];
      }
    }
  }
}
