/** Logical rows of a batch are mapped to physical rows that keep their request across batches.

    `owners[p]` is the request physical row p last worked for, EMPTY before its first use.  A
    request may occur in several logical rows. */
module RowAssignment {
  import opened Lists

  const EMPTY: int := -1

  // ----- the specification

  /** The first p < n with f(p), or -1. */
  function First(f: int -> bool, n: nat): (p: int)
    ensures -1 <= p < n
    ensures p >= 0 ==> f(p) && forall i :: 0 <= i < p ==> !f(i)
    ensures p < 0 ==> forall i :: 0 <= i < n ==> !f(i)
  {
    if n == 0 then -1
    else
      var p := First(f, n - 1);
      if p >= 0 then p else if f(n - 1) then n - 1 else -1
  }

  function Holds(owners: seq<int>, rows: seq<int>, id: int): int -> bool {
    p => 0 <= p < |owners| && p !in rows && owners[p] == id
  }

  function Unused(owners: seq<int>, rows: seq<int>): int -> bool {
    p => 0 <= p < |owners| && p !in rows
  }

  /** First pass: each of the first k logical rows takes the first untaken row of its request. */
  function Sticky(owners: seq<int>, ids: seq<int>, k: nat): (rows: seq<int>)
    requires k <= |ids|
    ensures |rows| == k
  {
    if k == 0 then []
    else
      var rows := Sticky(owners, ids, k - 1);
      rows + [First(Holds(owners, rows, ids[k - 1]), |owners|)]
  }

  /** The row a new request gets: an empty one if there is one, else any untaken one, else -1. */
  function Pick(owners: seq<int>, rows: seq<int>): (p: int)
    ensures -1 <= p < |owners| && (p >= 0 ==> p !in rows)
  {
    var empty := First(Holds(owners, rows, EMPTY), |owners|);
    if empty >= 0 then empty else First(Unused(owners, rows), |owners|)
  }

  /** Second pass, after the first k logical rows. */
  function Settled(owners: seq<int>, ids: seq<int>, k: nat): (rows: seq<int>)
    requires k <= |ids|
    ensures |rows| == |ids|
  {
    if k == 0 then Sticky(owners, ids, |ids|)
    else
      var rows := Settled(owners, ids, k - 1);
      if rows[k - 1] >= 0 then rows else rows[k - 1 := Pick(owners, rows)]
  }

  // ----- laws of the first pass

  /** Taken rows differ from one another. */
  ghost predicate Injective(rows: seq<int>) {
    forall i, j :: 0 <= i < j < |rows| && rows[i] == rows[j] ==> rows[i] < 0
  }

  ghost predicate Within(rows: seq<int>, n: nat) {
    forall i :: 0 <= i < |rows| ==> -1 <= rows[i] < n
  }

  lemma {:induction false} StickyFacts(owners: seq<int>, ids: seq<int>, k: nat)
    requires k <= |ids|
    ensures Injective(Sticky(owners, ids, k)) && Within(Sticky(owners, ids, k), |owners|)
    ensures forall i :: 0 <= i < k && Sticky(owners, ids, k)[i] >= 0 ==> owners[Sticky(owners, ids, k)[i]] == ids[i]
  {
    if k > 0 { StickyFacts(owners, ids, k - 1); }
  }

  /** A logical row goes away empty-handed only if all rows of its request are taken. */
  lemma {:induction false} StickyExhausts(owners: seq<int>, ids: seq<int>, k: nat, i: nat, p: int)
    requires i < k <= |ids| && 0 <= p < |owners| && owners[p] == ids[i] && Sticky(owners, ids, k)[i] < 0
    ensures p in Sticky(owners, ids, k)
  {
    if i < k - 1 {
      StickyExhausts(owners, ids, k - 1, i, p);
    } else {
      assert !Holds(owners, Sticky(owners, ids, k - 1), ids[i])(p);
    }
  }

  // ----- laws of the second pass

  /** The second pass only fills gaps, and does so with untaken rows. */
  lemma {:induction false} SettledFacts(owners: seq<int>, ids: seq<int>, k: nat)
    requires k <= |ids|
    ensures Injective(Settled(owners, ids, k)) && Within(Settled(owners, ids, k), |owners|)
    ensures forall i :: 0 <= i < |ids| && Sticky(owners, ids, |ids|)[i] >= 0 ==>
                          Settled(owners, ids, k)[i] == Sticky(owners, ids, |ids|)[i]
    ensures forall i :: k <= i < |ids| ==> Settled(owners, ids, k)[i] == Sticky(owners, ids, |ids|)[i]
  {
    hide Sticky, Pick, Injective, Within;
    if k == 0 {
      StickyFacts(owners, ids, |ids|);
    } else {
      SettledFacts(owners, ids, k - 1);
      var rows := Settled(owners, ids, k - 1);
      if rows[k - 1] < 0 { GapFilled(rows, k - 1, Pick(owners, rows), |owners|); }
    }
  }

  lemma GapFilled(rows: seq<int>, i: nat, p: int, n: nat)
    requires i < |rows| && rows[i] < 0 && -1 <= p < n && (p >= 0 ==> p !in rows)
    requires Injective(rows) && Within(rows, n)
    ensures Injective(rows[i := p]) && Within(rows[i := p], n)
  {
  }

  lemma {:induction false} SettledKeeps(owners: seq<int>, ids: seq<int>, k: nat, n: nat)
    requires k <= n <= |ids|
    ensures forall i :: 0 <= i < |ids| && Settled(owners, ids, k)[i] >= 0 ==>
                          Settled(owners, ids, n)[i] == Settled(owners, ids, k)[i]
    ensures forall i :: 0 <= i < k ==> Settled(owners, ids, n)[i] == Settled(owners, ids, k)[i]
  {
    if k < n { SettledKeeps(owners, ids, k, n - 1); }
  }

  /** Fewer than |owners| rows can be taken while a gap remains, so a gap can always be filled. */
  lemma UntakenExists(owners: seq<int>, rows: seq<int>, gap: nat)
    requires gap < |rows| <= |owners| && rows[gap] < 0 && Injective(rows) && Within(rows, |owners|)
    ensures Pick(owners, rows) >= 0
  {
    if Pick(owners, rows) < 0 {
      var all, others := Iota(|owners|), rows[..gap] + rows[gap + 1..];
      forall p | p in all ensures p in others {
        assert !Unused(owners, rows)(p);
        var i :| 0 <= i < |rows| && rows[i] == p;
        assert others[if i < gap then i else i - 1] == p;
      }
      NoDupCardinality(all);
      SetBound(others);
      SubsetCardinality((set p | p in all), (set p | p in others));
    }
  }

  lemma {:induction false} SetBound(s: seq<int>)
    ensures |set x | x in s| <= |s|
  {
    if s != [] {
      var front, last := s[..|s| - 1], s[|s| - 1];
      SetBound(front);
      assert s == front + [last];
      assert (set x | x in s) == (set x | x in front) + {last};
    }
  }

  lemma {:induction false} SettledTotal(owners: seq<int>, ids: seq<int>, k: nat)
    requires k <= |ids| <= |owners|
    ensures forall i :: 0 <= i < k ==> Settled(owners, ids, k)[i] >= 0
  {
    hide Sticky, Pick, Injective, Within;
    if k > 0 {
      SettledTotal(owners, ids, k - 1);
      SettledFacts(owners, ids, k - 1);
      var rows := Settled(owners, ids, k - 1);
      if rows[k - 1] < 0 { UntakenExists(owners, rows, k - 1); }
    }
  }

  // ----- the assignment

  /** The physical row of every logical row: with enough rows each gets one and no two the same. */
  function RowsFor(owners: seq<int>, ids: seq<int>): (rows: seq<int>)
    requires |ids| <= |owners|
    ensures |rows| == |ids| && NoDup(rows)
    ensures forall i :: 0 <= i < |rows| ==> 0 <= rows[i] < |owners|
  {
    SettledTotal(owners, ids, |ids|);
    SettledFacts(owners, ids, |ids|);
    Settled(owners, ids, |ids|)
  }

  /** A logical row works on a row of another request only if every row of its own request
      serves another logical row of that request. */
  lemma ReturningKeepsRow(owners: seq<int>, ids: seq<int>, i: nat, p: int)
    requires i < |ids| <= |owners| && 0 <= p < |owners| && owners[p] == ids[i]
    requires owners[RowsFor(owners, ids)[i]] != ids[i]
    ensures exists j :: 0 <= j < |ids| && j != i && ids[j] == ids[i] && RowsFor(owners, ids)[j] == p
  {
    var sticky := Sticky(owners, ids, |ids|);
    SettledFacts(owners, ids, |ids|);
    StickyFacts(owners, ids, |ids|);
    StickyExhausts(owners, ids, |ids|, i, p);
    var j :| 0 <= j < |ids| && sticky[j] == p;
    assert RowsFor(owners, ids)[j] == p;
  }

  /** A row of a request in the batch goes to another request only once all logical rows of
      that request work on rows of their own. */
  lemma ActiveRowNotGivenAway(owners: seq<int>, ids: seq<int>, i: nat, j: nat)
    requires i < |ids| <= |owners| && j < |ids|
    requires owners[RowsFor(owners, ids)[i]] == ids[j] != ids[i]
    ensures owners[RowsFor(owners, ids)[j]] == ids[j]
  {
    if owners[RowsFor(owners, ids)[j]] != ids[j] {
      var p := RowsFor(owners, ids)[i];
      ReturningKeepsRow(owners, ids, j, p);
      }
  }

  /** A row that served another request is reclaimed only when no empty row is left untaken. */
  lemma ReclaimedLast(owners: seq<int>, ids: seq<int>, i: nat, p: int)
    requires i < |ids| <= |owners| && 0 <= p < |owners| && owners[p] == EMPTY
    requires owners[RowsFor(owners, ids)[i]] != ids[i] && owners[RowsFor(owners, ids)[i]] != EMPTY
    ensures p in RowsFor(owners, ids)
  {
    var before := Settled(owners, ids, i);
    SettledKeeps(owners, ids, i, |ids|);
    SettledKeeps(owners, ids, i + 1, |ids|);
    SettledFacts(owners, ids, i);
    StickyFacts(owners, ids, |ids|);
    assert RowsFor(owners, ids)[i] == Settled(owners, ids, i + 1)[i];
    assert before[i] < 0;
    assert !Holds(owners, before, EMPTY)(p);
    var j :| 0 <= j < |before| && before[j] == p;
    assert RowsFor(owners, ids)[j] == p;
  }

  /** Row p is taken before logical row i is given a row of another request: it returned to its
      request, or was given to an earlier logical row. */
  ghost predicate TakenBefore(owners: seq<int>, ids: seq<int>, rows: seq<int>, p: int, i: nat) {
    exists j :: 0 <= j < |ids| && j < |rows| && rows[j] == p && 0 <= p < |owners| && (j < i || owners[p] == ids[j])
  }

  lemma {:induction false} StickyPrefix(owners: seq<int>, ids: seq<int>, k: nat, n: nat)
    requires k <= n <= |ids|
    ensures Sticky(owners, ids, n)[..k] == Sticky(owners, ids, k)
  {
    if k < n { StickyPrefix(owners, ids, k, n - 1); }
  }

  /** A logical row on a row of its own request got it in the first pass. */
  lemma ReturnedInFirstPass(owners: seq<int>, ids: seq<int>, i: nat)
    requires i < |ids| <= |owners| && owners[RowsFor(owners, ids)[i]] == ids[i]
    ensures Sticky(owners, ids, |ids|)[i] == RowsFor(owners, ids)[i]
  {
    var n := |ids|;
    var sticky, rows := Sticky(owners, ids, n), RowsFor(owners, ids);
    SettledFacts(owners, ids, n);
    hide Sticky;
    if sticky[i] < 0 { StickyExhausts(owners, ids, n, i, rows[i]); }
  }

  lemma StickyLowest(owners: seq<int>, ids: seq<int>, i: nat, p: nat)
    requires i < |ids| && p < |owners| && p < Sticky(owners, ids, i + 1)[i] && owners[p] == ids[i]
    ensures exists j :: 0 <= j < i && Sticky(owners, ids, i)[j] == p
  {
    var before := Sticky(owners, ids, i);
    assert !Holds(owners, before, ids[i])(p);
  }

  /** A logical row that returns to its request gets the lowest row of it that no earlier one got. */
  lemma ReturnsToLowest(owners: seq<int>, ids: seq<int>, i: nat, p: nat)
    requires i < |ids| <= |owners| && owners[RowsFor(owners, ids)[i]] == ids[i]
    requires p < RowsFor(owners, ids)[i] && owners[p] == ids[i]
    ensures exists j :: 0 <= j < i && ids[j] == ids[i] && RowsFor(owners, ids)[j] == p
  {
    var n := |ids|;
    var sticky := Sticky(owners, ids, n);
    ReturnedInFirstPass(owners, ids, i);
    StickyPrefix(owners, ids, i, n);
    StickyPrefix(owners, ids, i + 1, n);
    assert Sticky(owners, ids, i + 1)[i] == sticky[..i + 1][i];
    StickyLowest(owners, ids, i, p);
    var j :| 0 <= j < i && Sticky(owners, ids, i)[j] == p;
    assert sticky[j] == sticky[..i][j] == p;
    SettledFacts(owners, ids, n);
    StickyFacts(owners, ids, n);
    hide Sticky, Settled, Injective, Within;
  }

  lemma SettledTaken(owners: seq<int>, ids: seq<int>, i: nat, p: nat)
    requires i < |ids| <= |owners| && p < |owners| && p in Settled(owners, ids, i)
    ensures TakenBefore(owners, ids, RowsFor(owners, ids), p, i)
  {
    SettledKeeps(owners, ids, i, |ids|);
    SettledFacts(owners, ids, i);
    StickyFacts(owners, ids, |ids|);
    hide Sticky, Injective, Within;
    var j :| 0 <= j < |ids| && Settled(owners, ids, i)[j] == p;
    assert RowsFor(owners, ids)[j] == p;
  }

  /** A logical row that must take a row of another request gets the lowest empty row left, and only
      without any the lowest row left. */
  lemma TakesLowest(owners: seq<int>, ids: seq<int>, i: nat, p: nat)
    requires i < |ids| <= |owners| && p < |owners| && owners[RowsFor(owners, ids)[i]] != ids[i]
    requires !TakenBefore(owners, ids, RowsFor(owners, ids), p, i)
    ensures var r := RowsFor(owners, ids)[i];
            if owners[r] == -1 then owners[p] == -1 ==> r <= p else owners[p] != -1 && r <= p
  {
    var before, rows := Settled(owners, ids, i), RowsFor(owners, ids);
    SettledKeeps(owners, ids, i, |ids|);
    SettledKeeps(owners, ids, i + 1, |ids|);
    SettledFacts(owners, ids, i);
    StickyFacts(owners, ids, |ids|);
    assert rows[i] == Settled(owners, ids, i + 1)[i] && before[i] < 0;
    if p in before { SettledTaken(owners, ids, i, p); }
    assert Unused(owners, before)(p) && (owners[p] == EMPTY ==> Holds(owners, before, EMPTY)(p));
  }

  /** Who owns each row after the batch. */
  function NextOwner(owners: seq<int>, ids: seq<int>, p: int): int
    requires |ids| <= |owners| && 0 <= p < |owners|
  {
    var rows := RowsFor(owners, ids);
    var i := First(j => 0 <= j < |rows| && rows[j] == p, |ids|);
    if i >= 0 then ids[i] else owners[p]
  }

  ghost predicate UniqueOwners(owners: int -> int, n: nat) {
    forall p, r :: 0 <= p < r < n && owners(p) == owners(r) ==> owners(p) == EMPTY
  }

  function OwnersNow(owners: seq<int>): int -> int { p => if 0 <= p < |owners| then owners[p] else EMPTY }

  function OwnersNext(owners: seq<int>, ids: seq<int>): int -> int
    requires |ids| <= |owners|
  {
    p => if 0 <= p < |owners| then NextOwner(owners, ids, p) else EMPTY
  }

  /** With distinct requests a batch leaves no request with two rows, and a returning one keeps its row. */
  lemma OwnersStayUnique(owners: seq<int>, ids: seq<int>)
    requires |ids| <= |owners| && NoDup(ids) && UniqueOwners(OwnersNow(owners), |owners|)
    ensures UniqueOwners(OwnersNext(owners, ids), |owners|)
    ensures forall i, p :: 0 <= i < |ids| && 0 <= p < |owners| && owners[p] == ids[i] != EMPTY ==>
              RowsFor(owners, ids)[i] == p
  {
    var rows := RowsFor(owners, ids);
    forall i, p | 0 <= i < |ids| && 0 <= p < |owners| && owners[p] == ids[i] != EMPTY ensures rows[i] == p {
      if owners[rows[i]] != ids[i] {
        ReturningKeepsRow(owners, ids, i, p);
      } else {
        assert OwnersNow(owners)(rows[i]) == OwnersNow(owners)(p);
      }
    }
    forall p, r | 0 <= p < r < |owners| && NextOwner(owners, ids, p) == NextOwner(owners, ids, r)
      ensures NextOwner(owners, ids, p) == EMPTY
    {
      assert OwnersNow(owners)(p) == owners[p] && OwnersNow(owners)(r) == owners[r];
    }
  }

  // ----- the planner's loops

  /** `used` flags exactly the rows already taken. */
  ghost predicate Flags(used: seq<int>, rows: seq<int>) {
    forall p :: 0 <= p < |used| ==> (used[p] == 0 <==> p !in rows)
  }

  lemma FirstIs(f: int -> bool, n: nat, p: int)
    requires 0 <= p < n && f(p) && forall i :: 0 <= i < p ==> !f(i)
    ensures First(f, n) == p
  {
  }

  method FindHolder(owners: array<int>, used: array<int>, id: int, ghost rows: seq<int>) returns (found: int)
    requires owners.Length == used.Length && Flags(used[..], rows)
    ensures found == First(Holds(owners[..], rows, id), owners.Length)
  {
    ghost var f := Holds(owners[..], rows, id);
    for p := 0 to owners.Length
      invariant forall i :: 0 <= i < p ==> !f(i)
    {
      assert used[p] == used[..][p];
      if used[p] == 0 && owners[p] == id {
        FirstIs(f, owners.Length, p);
        return p;
      }
    }
    return -1;
  }

  method FindUnused(owners: array<int>, used: array<int>, ghost rows: seq<int>) returns (found: int)
    requires owners.Length == used.Length && Flags(used[..], rows)
    ensures found == First(Unused(owners[..], rows), owners.Length)
  {
    ghost var f := Unused(owners[..], rows);
    for p := 0 to owners.Length
      invariant forall i :: 0 <= i < p ==> !f(i)
    {
      assert used[p] == used[..][p];
      if used[p] == 0 {
        FirstIs(f, owners.Length, p);
        return p;
      }
    }
    return -1;
  }

  method ClearTables(rows: array<int>, n: nat, used: array<int>)
    requires n <= rows.Length && rows != used
    modifies rows, used
    ensures Flags(used[..], []) && forall i :: 0 <= i < n ==> rows[i] == -1
  {
    forall i | 0 <= i < n { rows[i] := -1; }
    forall p | 0 <= p < used.Length { used[p] := 0; }
  }

  lemma StickyNone(owners: seq<int>, ids: seq<int>)
    ensures Sticky(owners, ids, 0) == []
  {
  }

  lemma StickyStep(owners: seq<int>, ids: seq<int>, k: nat)
    requires k < |ids|
    ensures var rows := Sticky(owners, ids, k);
            Sticky(owners, ids, k + 1) == rows + [First(Holds(owners, rows, ids[k]), |owners|)]
  {
  }

  lemma FlagsTaken(used: seq<int>, rows: seq<int>, p: int)
    requires -1 <= p < |used| && Flags(used, rows)
    ensures Flags(if p >= 0 then used[p := 1] else used, rows + [p])
  {
  }

  method StickyPass(owners: array<int>, ids: seq<int>, rows: array<int>, used: array<int>)
    requires owners.Length == used.Length && |ids| <= rows.Length
    requires owners != rows && owners != used && rows != used
    modifies rows, used
    ensures rows[..|ids|] == Sticky(owners[..], ids, |ids|) && Flags(used[..], rows[..|ids|])
  {
    hide Sticky, Flags, Holds;
    ClearTables(rows, |ids|, used);
    ghost var o := owners[..];
    StickyNone(o, ids);
    for k := 0 to |ids|
      invariant rows[..k] == Sticky(o, ids, k) && Flags(used[..], rows[..k])
      invariant forall i :: k <= i < |ids| ==> rows[i] == -1
    {
      ghost var before, flags := rows[..k], used[..];
      StickyStep(o, ids, k);
      var p := FindHolder(owners, used, ids[k], before);
      FlagsTaken(flags, before, p);
      if p >= 0 {
        rows[k] := p;
        used[p] := 1;
      }
      assert used[..] == if p >= 0 then flags[p := 1] else flags;
      assert rows[..k + 1] == before + [p];
    }
  }

  method PickRow(owners: array<int>, used: array<int>, ghost rows: seq<int>) returns (p: int)
    requires owners.Length == used.Length && Flags(used[..], rows)
    ensures p == Pick(owners[..], rows)
  {
    p := FindHolder(owners, used, EMPTY, rows);
    if p < 0 {
      p := FindUnused(owners, used, rows);
    }
  }

  method SettleOne(owners: array<int>, ids: seq<int>, rows: array<int>, used: array<int>, k: int) returns (ok: bool)
    requires owners.Length == used.Length && 0 <= k < |ids| <= rows.Length
    requires owners != rows && owners != used && rows != used
    requires rows[..|ids|] == Settled(owners[..], ids, k) && Flags(used[..], rows[..|ids|])
    modifies rows, used
    ensures !ok ==> Settled(owners[..], ids, k + 1)[k] < 0
    ensures ok ==> rows[..|ids|] == Settled(owners[..], ids, k + 1) && Flags(used[..], rows[..|ids|])
    ensures ok ==> rows[k] >= 0 && forall i :: 0 <= i < |ids| && i != k ==> rows[i] == old(rows[i])
  {
    ghost var o, before, flags := owners[..], rows[..|ids|], used[..];
    SettledStep(o, ids, k);
    hide Settled, Pick, Flags;
    assert rows[k] == before[k];
    if rows[k] >= 0 {
      return true;
    }
    var p := PickRow(owners, used, before);
    if p < 0 {
      return false;
    }
    rows[k] := p;
    used[p] := 1;
    assert used[..] == flags[p := 1] && rows[..|ids|] == before[k := p];
    FlagsFilled(flags, before, k, p);
    return true;
  }

  /** Fills the gaps; gives up at the first logical row for which no row is left. */
  method FillGaps(owners: array<int>, ids: seq<int>, rows: array<int>, used: array<int>) returns (gap: int)
    requires owners.Length == used.Length && |ids| <= rows.Length
    requires owners != rows && owners != used && rows != used
    requires rows[..|ids|] == Settled(owners[..], ids, 0) && Flags(used[..], rows[..|ids|])
    modifies rows, used
    ensures 0 <= gap <= |ids|
    ensures gap < |ids| ==> Settled(owners[..], ids, gap + 1)[gap] < 0
    ensures gap == |ids| ==> rows[..|ids|] == Settled(owners[..], ids, |ids|)
    ensures gap == |ids| ==> forall i :: 0 <= i < |ids| ==> rows[i] >= 0
  {
    hide Settled, Flags;
    gap := 0;
    while gap < |ids|
      invariant 0 <= gap <= |ids|
      invariant rows[..|ids|] == Settled(owners[..], ids, gap) && Flags(used[..], rows[..|ids|])
      invariant forall i :: 0 <= i < gap ==> rows[i] >= 0
    {
      var ok := SettleOne(owners, ids, rows, used, gap);
      if !ok {
        return;
      }
      gap := gap + 1;
    }
  }

  method AssignRows(owners: array<int>, ids: seq<int>, rows: array<int>, used: array<int>) returns (ok: bool)
    requires owners.Length == used.Length && |ids| <= rows.Length
    requires owners != rows && owners != used && rows != used
    modifies rows, used
    ensures ok <==> forall i :: 0 <= i < |ids| ==> Settled(owners[..], ids, |ids|)[i] >= 0
    ensures ok ==> rows[..|ids|] == Settled(owners[..], ids, |ids|)
    ensures |ids| <= owners.Length ==> ok && rows[..|ids|] == RowsFor(owners[..], ids)
  {
    hide Settled, Sticky, Flags, RowsFor;
    ghost var o := owners[..];
    StickyPass(owners, ids, rows, used);
    SettledStart(o, ids);
    EnoughRows(o, ids);
    var gap := FillGaps(owners, ids, rows, used);
    ok := gap == |ids|;
    if ok {
      forall i | 0 <= i < |ids| ensures Settled(o, ids, |ids|)[i] >= 0 { assert rows[i] == rows[..|ids|][i]; }
    } else {
      SettledKeeps(o, ids, gap + 1, |ids|);
      assert Settled(o, ids, |ids|)[gap] < 0;
    }
  }

  lemma EnoughRows(owners: seq<int>, ids: seq<int>)
    ensures |ids| <= |owners| ==>
              RowsFor(owners, ids) == Settled(owners, ids, |ids|) && forall i :: 0 <= i < |ids| ==>
                    Settled(owners, ids, |ids|)[i] >= 0
  {
    if |ids| <= |owners| { SettledTotal(owners, ids, |ids|); }
  }

  lemma SettledStart(owners: seq<int>, ids: seq<int>)
    ensures Settled(owners, ids, 0) == Sticky(owners, ids, |ids|)
  {
  }

  lemma SettledStep(owners: seq<int>, ids: seq<int>, k: nat)
    requires k < |ids|
    ensures var rows := Settled(owners, ids, k);
            Settled(owners, ids, k + 1) == if rows[k] >= 0 then rows else rows[k := Pick(owners, rows)]
  {
  }

  lemma FlagsFilled(used: seq<int>, rows: seq<int>, k: nat, p: int)
    requires k < |rows| && rows[k] < 0 && 0 <= p < |used| && Flags(used, rows)
    ensures Flags(used[p := 1], rows[k := p])
  {
    var filled := rows[k := p];
    forall r | 0 <= r < |used| ensures r in filled <==> r in rows || r == p {
      if r in rows {
        var i :| 0 <= i < |rows| && rows[i] == r;
        assert filled[i] == r;
      }
      if r == p { assert filled[k] == p; }
    }
  }
}
