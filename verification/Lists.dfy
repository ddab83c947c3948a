/** Facts about finite sequences shared by the other modules. */
module Lists {

  function Min(a: int, b: int): int { if a <= b then a else b }

  function Max(a: int, b: int): int { if a <= b then b else a }

  /** A row-major index grows with its row: the width bounds what the column can add. */
  lemma {:induction false} RowMajorOrder(m: nat, t: nat, n: nat, u: nat, width: nat)
    requires m < n && t < width
    ensures t + m * width < u + n * width
    decreases n
  {
    assert (n - 1) * width + width == n * width;
    if m < n - 1 { RowMajorOrder(m, t, n - 1, u, width); }
  }

  function Iota(n: nat): (s: seq<int>)
    ensures |s| == n && forall i :: 0 <= i < n ==> s[i] == i
  {
    seq(n, i => i)
  }

  ghost predicate NoDup<T(!new)>(s: seq<T>) {
    forall i, j :: 0 <= i < j < |s| ==> s[i] != s[j]
  }

  ghost predicate SortedBy<T(!new)>(s: seq<T>, key: T -> int) {
    forall i, j :: 0 <= i < j < |s| ==> key(s[i]) <= key(s[j])
  }

  /** The elements of s that satisfy f, in their order in s. */
  function Filter<T>(f: T -> bool, s: seq<T>): (r: seq<T>)
    ensures |r| <= |s|
  {
    if s == [] then []
    else
      var front := Filter(f, s[..|s| - 1]);
      if f(s[|s| - 1]) then front + [s[|s| - 1]] else front
  }

  lemma FilterStep<T>(f: T -> bool, s: seq<T>, k: nat)
    requires k < |s|
    ensures Filter(f, s[..k + 1]) == if f(s[k]) then Filter(f, s[..k]) + [s[k]] else Filter(f, s[..k])
  {
    assert s[..k + 1][..k] == s[..k];
  }

  lemma {:induction false} FilterMember<T(!new)>(f: T -> bool, s: seq<T>)
    ensures forall x :: x in Filter(f, s) <==> x in s && f(x)
  {
    if s != [] {
      FilterMember(f, s[..|s| - 1]);
      assert s == s[..|s| - 1] + [s[|s| - 1]];
    }
  }

  lemma {:induction false} FilterJoin<T>(f: T -> bool, a: seq<T>, b: seq<T>)
    ensures Filter(f, a + b) == Filter(f, a) + Filter(f, b)
  {
    if b == [] {
      assert a + b == a;
    } else {
      FilterJoin(f, a, b[..|b| - 1]);
      assert (a + b)[..|a + b| - 1] == a + b[..|b| - 1];
    }
  }

  /** Where an element of s stands among those that satisfy f. */
  lemma FilterIndex<T>(f: T -> bool, s: seq<T>, j: nat)
    requires j < |s| && f(s[j])
    ensures |Filter(f, s[..j])| < |Filter(f, s)| && Filter(f, s)[|Filter(f, s[..j])|] == s[j]
  {
    FilterStep(f, s, j);
    FilterJoin(f, s[..j + 1], s[j + 1..]);
    assert s[..j + 1] + s[j + 1..] == s;
  }

  lemma IndexBelow<T(!new)>(s: seq<T>, k: nat, n: nat)
    requires NoDup(s) && k < |s| && n <= |s|
    ensures s[k] in s[..n] <==> k < n
  {
    if k < n { assert s[..n][k] == s[k]; }
  }

  /** A prefix of the selected elements that reaches s[j] has every earlier one. */
  lemma FilterPrefix<T(!new)>(f: T -> bool, s: seq<T>, i: nat, j: nat, n: nat)
    requires i < j < |s| && f(s[i]) && f(s[j]) && NoDup(Filter(f, s)) && n <= |Filter(f, s)|
             && s[j] in Filter(f, s)[..n]
    ensures s[i] in Filter(f, s)[..n]
  {
    hide Filter;
    FilterIndex(f, s, i);
    FilterIndex(f, s, j);
    FilterJoin(f, s[..i], s[i..j]);
    assert s[..i] + s[i..j] == s[..j];
    IndexBelow(Filter(f, s), |Filter(f, s[..j])|, n);
    IndexBelow(Filter(f, s), |Filter(f, s[..i])|, n);
  }

  lemma {:induction false} FilterAgree<T(!new)>(f: T -> bool, g: T -> bool, s: seq<T>)
    requires forall x :: x in s ==> (f(x) <==> g(x))
    ensures Filter(f, s) == Filter(g, s)
  {
    if s != [] {
      var front, last := s[..|s| - 1], s[|s| - 1];
      FilterAgree(f, g, front);
      assert last in s;
      assert f(last) <==> g(last);
    }
  }

  /** If h holds exactly when one of f and g does, and never both, the counts add up. */
  lemma {:induction false} FilterCounts<T>(f: T -> bool, g: T -> bool, h: T -> bool, s: seq<T>)
    requires forall i :: 0 <= i < |s| ==> (h(s[i]) <==> f(s[i]) || g(s[i])) && !(f(s[i]) && g(s[i]))
    ensures |Filter(h, s)| == |Filter(f, s)| + |Filter(g, s)|
  {
    if s != [] { FilterCounts(f, g, h, s[..|s| - 1]); }
  }

  lemma {:induction false} FilterNoDup<T(!new)>(f: T -> bool, s: seq<T>)
    requires NoDup(s)
    ensures NoDup(Filter(f, s))
  {
    if s != [] {
      FilterNoDup(f, s[..|s| - 1]);
      FilterMember(f, s[..|s| - 1]);
    }
  }

  lemma {:induction false} FilterSplits<T(!new)>(f: T -> bool, g: T -> bool, s: seq<T>)
    requires forall x :: x in s ==> f(x) != g(x)
    ensures |Filter(f, s)| + |Filter(g, s)| == |s|
    ensures multiset(Filter(f, s)) + multiset(Filter(g, s)) == multiset(s)
  {
    if s != [] {
      FilterSplits(f, g, s[..|s| - 1]);
      assert s == s[..|s| - 1] + [s[|s| - 1]];
    }
  }

  /** Elements of a filtered list keep every order relation they had in the source. */
  lemma {:induction false} FilterSorted<T(!new)>(f: T -> bool, s: seq<T>, key: T -> int)
    requires SortedBy(s, key)
    ensures SortedBy(Filter(f, s), key)
  {
    if s != [] {
      var front := s[..|s| - 1];
      FilterSorted(f, front, key);
      FilterMember(f, front);
      forall i | 0 <= i < |Filter(f, front)|
        ensures key(Filter(f, front)[i]) <= key(s[|s| - 1])
      {
        assert Filter(f, front)[i] in front;
      }
    }
  }

  lemma NoDupAppend<T(!new)>(a: seq<T>, b: seq<T>)
    requires NoDup(a) && NoDup(b) && forall x :: x in b ==> x !in a
    ensures NoDup(a + b) && forall x :: x in a + b <==> x in a || x in b
  {
    forall i, j | 0 <= i < |a| && 0 <= j < |b| ensures a[i] != b[j] {
      assert b[j] in b;
    }
  }

  lemma {:induction false} NoDupByMultiset<T(!new)>(s: seq<T>)
    ensures NoDup(s) <==> forall x :: multiset(s)[x] <= 1
  {
    if s != [] {
      var front, last := s[..|s| - 1], s[|s| - 1];
      NoDupByMultiset(front);
      assert s == front + [last];
      assert forall x :: multiset(s)[x] == multiset(front)[x] + multiset{last}[x];
      if NoDup(s) {
        assert last !in front;
      }
      if forall x :: multiset(s)[x] <= 1 {
        assert forall x :: multiset(front)[x] <= multiset(s)[x];
        assert last !in multiset(front);
      }
    }
  }

  lemma {:induction false} NoDupCardinality<T(!new)>(s: seq<T>)
    requires NoDup(s)
    ensures |set x | x in s| == |s|
  {
    if s != [] {
      var front, last := s[..|s| - 1], s[|s| - 1];
      NoDupCardinality(front);
      assert s == front + [last];
      assert (set x | x in s) == (set x | x in front) + {last};
    }
  }

  lemma NoDupSameLength<T(!new)>(a: seq<T>, b: seq<T>)
    requires NoDup(a) && NoDup(b) && forall x :: x in a <==> x in b
    ensures |a| == |b|
  {
    NoDupCardinality(a);
    NoDupCardinality(b);
    var sa := set x | x in a;
    var sb := set x | x in b;
    assert sa == sb;
  }

  lemma SubsetCardinality<T>(a: set<T>, b: set<T>)
    requires a <= b
    ensures |a| <= |b|
    ensures |a| == |b| ==> a == b
  {
    assert b == a + (b - a);
  }

  /** s lists 0, ..., n-1 in some order. */
  ghost predicate IsPermutation(s: seq<int>, n: nat) {
    |s| == n && NoDup(s) && forall i :: 0 <= i < |s| ==> 0 <= s[i] < n
  }

  lemma PermutationOnto(s: seq<int>, n: nat)
    requires IsPermutation(s, n)
    ensures forall x :: 0 <= x < n ==> x in s
  {
    NoDupCardinality(s);
    NoDupCardinality(Iota(n));
    var all := set x | x in Iota(n);
    forall x | x in s ensures x in all { assert Iota(n)[x] == x; }
    SubsetCardinality((set x | x in s), all);
    forall x | 0 <= x < n ensures x in s {
      assert Iota(n)[x] in all;
    }
  }

  lemma PermutationByMultiset(s: seq<int>, r: seq<int>, n: nat)
    requires IsPermutation(s, n) && multiset(r) == multiset(s)
    ensures IsPermutation(r, n)
  {
    NoDupByMultiset(s);
    NoDupByMultiset(r);
    assert |r| == |multiset(r)| == |multiset(s)| == |s|;
    forall i | 0 <= i < |r| ensures 0 <= r[i] < n {
      assert r[i] in multiset(s);
    }
  }

  /** Writing at the end of a window appends to it; writing outside leaves it alone. */
  lemma WindowUpdate<T>(s: seq<T>, lo: nat, hi: nat, i: nat, x: T)
    requires lo <= hi <= |s| && i < |s|
    ensures i == hi ==> s[i := x][lo..hi + 1] == s[lo..hi] + [x]
    ensures !(lo <= i < hi) ==> s[i := x][lo..hi] == s[lo..hi]
  {
  }

  /** base with at[i] := val[i] for i = 0, ..., n-1 in turn. */
  function Scatter(base: seq<int>, at: seq<int>, val: seq<int>, n: nat): (r: seq<int>)
    requires n <= |at| && n <= |val|
    requires forall i :: 0 <= i < n ==> 0 <= at[i] < |base|
    ensures |r| == |base|
  {
    if n == 0 then base else Scatter(base, at, val, n - 1)[at[n - 1] := val[n - 1]]
  }

  lemma {:induction false} ScatterReads(base: seq<int>, at: seq<int>, val: seq<int>, n: nat)
    requires n <= |at| && n <= |val|
    requires forall i :: 0 <= i < n ==> 0 <= at[i] < |base|
    ensures forall p :: 0 <= p < |base| && p !in at[..n] ==> Scatter(base, at, val, n)[p] == base[p]
    ensures NoDup(at) ==> forall i :: 0 <= i < n ==> Scatter(base, at, val, n)[at[i]] == val[i]
  {
    if n > 0 {
      ScatterReads(base, at, val, n - 1);
      assert at[..n] == at[..n - 1] + [at[n - 1]];
    }
  }

  // ----- stable sorting

  /** le is total and transitive. */
  ghost predicate Orders<T(!new)>(le: (T, T) -> bool) {
    && (forall a, b :: le(a, b) || le(b, a))
    && forall a, b, c :: le(a, b) && le(b, c) ==> le(a, c)
  }

  ghost predicate InOrderOf<T(!new)>(le: (T, T) -> bool, s: seq<T>) {
    forall i, j :: 0 <= i < j < |s| ==> le(s[i], s[j])
  }

  /** x goes behind the last element that may stand before it. */
  function Insert<T>(le: (T, T) -> bool, s: seq<T>, x: T): seq<T> {
    if s == [] then [x]
    else if le(s[|s| - 1], x) then s + [x]
    else Insert(le, s[..|s| - 1], x) + [s[|s| - 1]]
  }

  function Sort<T>(le: (T, T) -> bool, s: seq<T>): seq<T> {
    if s == [] then [] else Insert(le, Sort(le, s[..|s| - 1]), s[|s| - 1])
  }

  lemma {:induction false} InsertSame<T(!new)>(le: (T, T) -> bool, s: seq<T>, x: T)
    ensures multiset(Insert(le, s, x)) == multiset(s) + multiset{x}
  {
    if s != [] {
      InsertSame(le, s[..|s| - 1], x);
      assert s == s[..|s| - 1] + [s[|s| - 1]];
    }
  }

  lemma {:induction false} InsertOrdered<T(!new)>(le: (T, T) -> bool, s: seq<T>, x: T)
    requires Orders(le) && InOrderOf(le, s)
    ensures InOrderOf(le, Insert(le, s, x))
  {
    if s != [] {
      var front, last := s[..|s| - 1], s[|s| - 1];
      if le(last, x) {
        assert forall i :: 0 <= i < |front| ==> le(front[i], x);
      } else {
        InsertOrdered(le, front, x);
        InsertSame(le, front, x);
        var r := Insert(le, front, x);
        forall i | 0 <= i < |r| ensures le(r[i], last) {
          assert r[i] in multiset(r);
          assert r[i] in front || r[i] == x;
        }
      }
    }
  }

  lemma {:induction false} SortMultiset<T(!new)>(le: (T, T) -> bool, s: seq<T>)
    ensures multiset(Sort(le, s)) == multiset(s)
  {
    hide Insert;
    if s != [] {
      SortMultiset(le, s[..|s| - 1]);
      InsertSame(le, Sort(le, s[..|s| - 1]), s[|s| - 1]);
      assert s == s[..|s| - 1] + [s[|s| - 1]];
    }
  }

  lemma SortSame<T(!new)>(le: (T, T) -> bool, s: seq<T>)
    ensures multiset(Sort(le, s)) == multiset(s)
    ensures forall x :: x in Sort(le, s) <==> x in s
  {
    hide Sort;
    SortMultiset(le, s);
    assert forall x :: x in Sort(le, s) <==> x in multiset(Sort(le, s));
    assert forall x :: x in s <==> x in multiset(s);
  }

  lemma {:induction false} SortOrdered<T(!new)>(le: (T, T) -> bool, s: seq<T>)
    requires Orders(le)
    ensures InOrderOf(le, Sort(le, s))
  {
    if s != [] {
      SortOrdered(le, s[..|s| - 1]);
      InsertOrdered(le, Sort(le, s[..|s| - 1]), s[|s| - 1]);
    }
  }

  /** perm says where the elements of a list came from. */
  ghost predicate ComesFrom<T(!new)>(s: seq<T>, r: seq<T>, perm: seq<int>) {
    |r| == |perm| == |s| && IsPermutation(perm, |s|) && forall a :: 0 <= a < |perm| ==> r[a] == s[perm[a]]
  }

  /** In order of le, and elements that may stand either way in order of perm. */
  ghost predicate StableBy<T(!new)>(le: (T, T) -> bool, r: seq<T>, perm: seq<int>) {
    |r| == |perm| && forall a, b :: 0 <= a < b < |r| ==> le(r[a], r[b]) && (le(r[b], r[a]) ==> perm[a] < perm[b])
  }

  /** Where Insert puts x: behind every element that may stand before it. */
  lemma {:induction false} InsertPlace<T(!new)>(le: (T, T) -> bool, s: seq<T>, x: T) returns (k: nat)
    ensures k <= |s| && Insert(le, s, x) == s[..k] + [x] + s[k..]
    ensures k > 0 ==> le(s[k - 1], x)
    ensures forall i :: k <= i < |s| ==> !le(s[i], x)
  {
    if s == [] || le(s[|s| - 1], x) {
      k := |s|;
    } else {
      k := InsertPlace(le, s[..|s| - 1], x);
    }
  }

  lemma {:induction false} SortStable<T(!new)>(le: (T, T) -> bool, s: seq<T>) returns (perm: seq<int>)
    requires Orders(le)
    ensures ComesFrom(s, Sort(le, s), perm) && StableBy(le, Sort(le, s), perm)
  {
    perm := [];
    if s != [] {
      var n := |s| - 1;
      perm := SortStable(le, s[..n]);
      var r := Sort(le, s[..n]);
      var k := InsertPlace(le, r, s[n]);
      InsertedFrom(s, r, perm, k);
      InsertedStable(le, r, s[n], perm, n, k);
      perm := perm[..k] + [n] + perm[k..];
    }
  }

  /** A list with x put in at position k, read at position a. */
  lemma InsertedAt<T>(s: seq<T>, x: T, k: nat, a: nat)
    requires k <= |s| && a <= |s|
    ensures (s[..k] + [x] + s[k..])[a] == if a < k then s[a] else if a == k then x else s[a - 1]
  {
  }

  lemma InsertedPermutation(perm: seq<int>, n: nat, k: nat)
    requires IsPermutation(perm, n) && k <= n
    ensures IsPermutation(perm[..k] + [n] + perm[k..], n + 1)
  {
    var r := perm[..k] + [n] + perm[k..];
    forall a, b | 0 <= a < b < |r| ensures r[a] != r[b] {
      InsertedAt(perm, n, k, a);
      InsertedAt(perm, n, k, b);
    }
  }

  /** Every element in front of position k may stand before x, and x before every other. */
  lemma InsertedBetween<T(!new)>(le: (T, T) -> bool, r: seq<T>, x: T, k: nat, i: nat)
    requires Orders(le) && InOrderOf(le, r) && k <= |r| && i < |r|
    requires (k > 0 ==> le(r[k - 1], x)) && forall i :: k <= i < |r| ==> !le(r[i], x)
    ensures if i < k then le(r[i], x) else le(x, r[i]) && !le(r[i], x)
  {
    if i < k - 1 { assert le(r[i], r[k - 1]); }
  }

  lemma InsertedFrom<T(!new)>(s: seq<T>, r: seq<T>, perm: seq<int>, k: nat)
    requires s != [] && ComesFrom(s[..|s| - 1], r, perm) && k <= |r|
    ensures ComesFrom(s, r[..k] + [s[|s| - 1]] + r[k..], perm[..k] + [|s| - 1] + perm[k..])
  {
    var x, n := s[|s| - 1], |s| - 1;
    var r', perm' := r[..k] + [x] + r[k..], perm[..k] + [n] + perm[k..];
    InsertedPermutation(perm, n, k);
    forall a | 0 <= a < |perm'| ensures r'[a] == s[perm'[a]] {
      InsertedAt(r, x, k, a);
      InsertedAt(perm, n, k, a);
    }
  }

  lemma InsertedStable<T(!new)>(le: (T, T) -> bool, r: seq<T>, x: T, perm: seq<int>, n: nat, k: nat)
    requires Orders(le) && StableBy(le, r, perm) && k <= |r| && forall i :: 0 <= i < |perm| ==> perm[i] < n
    requires (k > 0 ==> le(r[k - 1], x)) && forall i :: k <= i < |r| ==> !le(r[i], x)
    ensures StableBy(le, r[..k] + [x] + r[k..], perm[..k] + [n] + perm[k..])
  {
    var r', perm' := r[..k] + [x] + r[k..], perm[..k] + [n] + perm[k..];
    forall a, b | 0 <= a < b < |r'| ensures le(r'[a], r'[b]) && (le(r'[b], r'[a]) ==> perm'[a] < perm'[b]) {
      InsertedPair(le, r, x, perm, n, k, a, b);
    }
  }

  lemma InsertedPair<T(!new)>(le: (T, T) -> bool, r: seq<T>, x: T, perm: seq<int>, n: nat, k: nat, a: nat, b: nat)
    requires Orders(le) && StableBy(le, r, perm) && k <= |r| && forall i :: 0 <= i < |perm| ==> perm[i] < n
    requires (k > 0 ==> le(r[k - 1], x)) && forall i :: k <= i < |r| ==> !le(r[i], x)
    requires a < b <= |r|
    ensures var r', perm' := r[..k] + [x] + r[k..], perm[..k] + [n] + perm[k..];
            le(r'[a], r'[b]) && (le(r'[b], r'[a]) ==> perm'[a] < perm'[b])
  {
    InsertedAt(r, x, k, a);
    InsertedAt(r, x, k, b);
    InsertedAt(perm, n, k, a);
    InsertedAt(perm, n, k, b);
    if b == k { InsertedBetween(le, r, x, k, a); }
    if a == k { InsertedBetween(le, r, x, k, b - 1); }
    hide Orders;
  }
}
