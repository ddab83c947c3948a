/** Choosing which translations to apply to a text, and applying them. */
module Translate {
  import opened Lists

  /** One possible replacement: text[start..end] by msgstr. */
  datatype Candidate = Candidate(start: nat, end: nat, msgstr: string)

  predicate Overlap(a: Candidate, b: Candidate) { a.start < b.end && b.start < a.end }

  predicate Fits(c: Candidate, length: nat) { c.start < c.end <= length }

  function Length(c: Candidate): int { c.end - c.start }

  // ----- the reference: take a candidate unless it overlaps one already taken

  predicate Free(taken: seq<Candidate>, c: Candidate) {
    forall i :: 0 <= i < |taken| ==> !Overlap(taken[i], c)
  }

  function Greedy(cands: seq<Candidate>): seq<Candidate> {
    if cands == [] then []
    else
      var taken, c := Greedy(cands[..|cands| - 1]), cands[|cands| - 1];
      if Free(taken, c) then taken + [c] else taken
  }

  /** Longest first. */
  ghost predicate ByLength(cands: seq<Candidate>) {
    forall i, j :: 0 <= i < j < |cands| ==> Length(cands[i]) >= Length(cands[j])
  }

  /** A candidate left out overlaps a chosen one that came before it; with the longest first, one at
      least as long. */
  lemma {:induction false} LeftOutFor(cands: seq<Candidate>, i: nat) returns (j: nat)
    requires i < |cands| && forall k :: 0 <= k < |cands| ==> cands[k].start < cands[k].end
    ensures j <= i && cands[j] in Greedy(cands) && Overlap(cands[j], cands[i])
    ensures ByLength(cands) ==> Length(cands[j]) >= Length(cands[i])
  {
    var n := |cands| - 1;
    var taken := Greedy(cands[..n]);
    if i < n {
      j := LeftOutFor(cands[..n], i);
    } else if Free(taken, cands[n]) {
      j := n;
    } else {
      var k :| 0 <= k < |taken| && Overlap(taken[k], cands[n]);
      j := IndexOfChosen(cands[..n], taken[k]);
    }
  }

  lemma {:induction false} IndexOfChosen(cands: seq<Candidate>, c: Candidate) returns (j: nat)
    requires c in Greedy(cands)
    ensures j < |cands| && cands[j] == c
  {
    var n := |cands| - 1;
    if c in Greedy(cands[..n]) { j := IndexOfChosen(cands[..n], c); } else { j := n; }
  }

  // ----- the fast selection: a sorted list, binary insertion, two neighbours

  /** In text order, without overlaps. */
  ghost predicate Laid(s: seq<Candidate>) {
    && (forall i :: 0 <= i < |s| ==> s[i].start < s[i].end)
    && forall i, j :: 0 <= i < j < |s| ==> s[i].end <= s[j].start
  }

  /** Both lists hold the same candidates. */
  ghost predicate SameElements(a: seq<Candidate>, b: seq<Candidate>) { multiset(a) == multiset(b) }

  lemma FreeByElements(a: seq<Candidate>, b: seq<Candidate>, c: Candidate)
    requires SameElements(a, b)
    ensures Free(a, c) <==> Free(b, c)
  {
    assert forall x :: x in a <==> x in multiset(a);
    assert forall x :: x in b <==> x in multiset(b);
    assert Free(a, c) <==> forall x :: x in a ==> !Overlap(x, c);
    assert Free(b, c) <==> forall x :: x in b ==> !Overlap(x, c);
  }

  /** In a laid-out list only the neighbours of the insertion point can overlap. */
  lemma NeighboursSuffice(s: seq<Candidate>, c: Candidate, at: nat)
    requires Laid(s) && c.start < c.end && at <= |s|
    requires forall i :: 0 <= i < at ==> s[i].start < c.start
    requires forall i :: at <= i < |s| ==> c.start <= s[i].start
    ensures Free(s, c) <==> !(at > 0 && s[at - 1].end > c.start) && !(at < |s| && s[at].start < c.end)
  {
    var left, right := at > 0 && s[at - 1].end > c.start, at < |s| && s[at].start < c.end;
    if left { assert Overlap(s[at - 1], c); }
    if right { assert Overlap(s[at], c); }
    if !left && !right {
      forall i | 0 <= i < |s| ensures !Overlap(s[i], c) {
        if i < at - 1 { assert s[i].end <= s[at - 1].start; }
        if i > at { assert s[at].end <= s[i].start; }
      }
    }
  }

  lemma InsertKeepsLaid(s: seq<Candidate>, c: Candidate, at: nat)
    requires Laid(s) && c.start < c.end && at <= |s| && Free(s, c)
    requires forall i :: 0 <= i < at ==> s[i].start < c.start
    requires forall i :: at <= i < |s| ==> c.start <= s[i].start
    ensures Laid(s[..at] + [c] + s[at..])
    ensures multiset(s[..at] + [c] + s[at..]) == multiset(s) + multiset{c}
  {
    var r := s[..at] + [c] + s[at..];
    forall i, j | 0 <= i < j < |r| ensures r[i].end <= r[j].start {
      if i < at && j == at { assert !Overlap(s[i], c); }
      if i == at && j > at { assert !Overlap(s[j - 1], c); }
    }
    assert s == s[..at] + s[at..];
  }

  /** Where c belongs among the starts. */
  method InsertionPoint(s: seq<Candidate>, start: nat) returns (at: nat)
    requires Laid(s)
    ensures at <= |s|
    ensures forall i :: 0 <= i < at ==> s[i].start < start
    ensures forall i :: at <= i < |s| ==> start <= s[i].start
  {
    var low, high := 0, |s|;
    while low < high
      invariant 0 <= low <= high <= |s|
      invariant forall i :: 0 <= i < low ==> s[i].start < start
      invariant forall i :: high <= i < |s| ==> start <= s[i].start
    {
      var middle := (low + high) / 2;
      if s[middle].start < start {
        low := middle + 1;
      } else {
        high := middle;
      }
    }
    at := low;
  }

  /** The fast selection chooses what the reference chooses, laid out in text order. */
  method Select(cands: seq<Candidate>) returns (selected: seq<Candidate>)
    requires forall k :: 0 <= k < |cands| ==> cands[k].start < cands[k].end
    ensures Laid(selected) && SameElements(selected, Greedy(cands))
  {
    selected := [];
    for k := 0 to |cands|
      invariant Laid(selected) && SameElements(selected, Greedy(cands[..k]))
    {
      var c := cands[k];
      assert cands[..k + 1][..k] == cands[..k];
      var at := InsertionPoint(selected, c.start);
      NeighboursSuffice(selected, c, at);
      FreeByElements(selected, Greedy(cands[..k]), c);
      var overlapsPrevious := at > 0 && selected[at - 1].end > c.start;
      var overlapsNext := at < |selected| && selected[at].start < c.end;
      if !(overlapsPrevious || overlapsNext) {
        InsertKeepsLaid(selected, c, at);
        selected := selected[..at] + [c] + selected[at..];
      }
    }
    assert cands[..|cands|] == cands;
  }

  // ----- applying the selection

  /** gaps[0] + fills[0] + gaps[1] + fills[1] + ... */
  function Weave(gaps: seq<string>, fills: seq<string>): string
    requires |gaps| == |fills|
  {
    if fills == [] then ""
    else Weave(gaps[..|gaps| - 1], fills[..|fills| - 1]) + gaps[|gaps| - 1] + fills[|fills| - 1]
  }

  lemma WeaveMore(gaps: seq<string>, fills: seq<string>, gap: string, fill: string)
    requires |gaps| == |fills|
    ensures Weave(gaps + [gap], fills + [fill]) == Weave(gaps, fills) + gap + fill
  {
    assert (gaps + [gap])[..|gaps|] == gaps && (fills + [fill])[..|fills|] == fills;
  }

  function SpanOf(text: string, c: Candidate): string {
    if Fits(c, |text|) then text[c.start..c.end] else ""
  }

  function Originals(text: string, s: seq<Candidate>): (r: seq<string>)
    ensures |r| == |s|
  {
    seq(|s|, i requires 0 <= i < |s| => SpanOf(text, s[i]))
  }

  function Translations(s: seq<Candidate>): (r: seq<string>)
    ensures |r| == |s|
  {
    seq(|s|, i requires 0 <= i < |s| => s[i].msgstr)
  }

  /** Where the text after the first k spans begins. */
  function CursorAt(s: seq<Candidate>, k: nat): nat
    requires k <= |s|
  {
    if k == 0 then 0 else s[k - 1].end
  }

  /** The text between span k and the one before it. */
  function GapBefore(text: string, s: seq<Candidate>, k: nat): string
    requires k < |s|
  {
    if CursorAt(s, k) <= s[k].start <= |text| then text[CursorAt(s, k)..s[k].start] else ""
  }

  function Gaps(text: string, s: seq<Candidate>): (r: seq<string>)
    ensures |r| == |s|
  {
    seq(|s|, i requires 0 <= i < |s| => GapBefore(text, s, i))
  }

  function RestOf(text: string, s: seq<Candidate>): string {
    if CursorAt(s, |s|) <= |text| then text[CursorAt(s, |s|)..] else ""
  }

  // ----- where everything stands in the output

  /** By how much the first k replacements move what follows them. */
  function Shift(s: seq<Candidate>, k: nat): int
    requires k <= |s|
  {
    if k == 0 then 0 else Shift(s, k - 1) + |s[k - 1].msgstr| - (s[k - 1].end - s[k - 1].start)
  }

  /** The translation of span k stands where the span stood, moved by the earlier replacements. */
  ghost predicate SpanReplaced(s: seq<Candidate>, out: string, k: nat) {
    k < |s|
    && var at := s[k].start + Shift(s, k);
       0 <= at && at + |s[k].msgstr| <= |out| && out[at..at + |s[k].msgstr|] == s[k].msgstr
  }

  /** Character x stands between the spans k - 1 and k. */
  ghost predicate Between(text: string, s: seq<Candidate>, k: nat, x: nat) {
    k <= |s| && x < |text| && (k > 0 ==> s[k - 1].end <= x) && (k < |s| ==> x < s[k].start)
  }

  ghost predicate Moved(text: string, s: seq<Candidate>, out: string, k: nat, x: nat) {
    k <= |s| && x < |text| && 0 <= x + Shift(s, k) < |out| && out[x + Shift(s, k)] == text[x]
  }

  /** Each span is replaced by its translation, every other character stays, moved by the replacements
      before it, and there is nothing else. */
  ghost predicate Replaced(text: string, s: seq<Candidate>, out: string) {
    && |out| == |text| + Shift(s, |s|)
    && (forall k: nat :: k < |s| ==> SpanReplaced(s, out, k))
    && forall k: nat, x: nat :: Between(text, s, k, x) ==> Moved(text, s, out, k, x)
  }

  /** The same for the first k spans and the text up to them. */
  ghost predicate ReplacedUpTo(text: string, s: seq<Candidate>, out: string, n: nat) {
    && n <= |s| && |out| == CursorAt(s, n) + Shift(s, n)
    && (forall k: nat :: k < n ==> SpanReplaced(s, out, k))
    && forall k: nat, x: nat :: k < n && Between(text, s, k, x) ==> Moved(text, s, out, k, x)
  }

  lemma ReplacedNext(text: string, s: seq<Candidate>, out: string, n: nat, more: string)
    requires Laid(s) && n < |s| && Fits(s[n], |text|) && CursorAt(s, n) <= s[n].start
    requires ReplacedUpTo(text, s, out, n) && more == text[CursorAt(s, n)..s[n].start] + s[n].msgstr
    ensures ReplacedUpTo(text, s, out + more, n + 1)
  {
    var at := s[n].start + Shift(s, n);
    assert at == |out| + s[n].start - CursorAt(s, n);
    assert (out + more)[at..at + |s[n].msgstr|] == s[n].msgstr;
    Extended(text, s, out, more, n);
    forall x: nat | Between(text, s, n, x) ensures Moved(text, s, out + more, n, x) {
      assert (out + more)[x + Shift(s, n)] == more[x - CursorAt(s, n)] == text[x];
    }
  }

  /** More text at the end moves nothing. */
  lemma Extended(text: string, s: seq<Candidate>, out: string, more: string, n: nat)
    requires ReplacedUpTo(text, s, out, n)
    ensures forall k: nat :: k < n ==> SpanReplaced(s, out + more, k)
    ensures forall k: nat, x: nat :: k < n && Between(text, s, k, x) ==> Moved(text, s, out + more, k, x)
  {
    forall k: nat | k < n ensures SpanReplaced(s, out + more, k) {
      assert SpanReplaced(s, out, k);
      var at := s[k].start + Shift(s, k);
      assert (out + more)[at..at + |s[k].msgstr|] == out[at..at + |s[k].msgstr|];
    }
    forall k: nat, x: nat | k < n && Between(text, s, k, x) ensures Moved(text, s, out + more, k, x) {
      assert Moved(text, s, out, k, x);
    }
  }

  lemma ReplacedAll(text: string, s: seq<Candidate>, out: string)
    requires ReplacedUpTo(text, s, out, |s|) && CursorAt(s, |s|) <= |text|
    ensures Replaced(text, s, out + text[CursorAt(s, |s|)..])
  {
    var more := text[CursorAt(s, |s|)..];
    Extended(text, s, out, more, |s|);
    forall k: nat, x: nat | Between(text, s, k, x) ensures Moved(text, s, out + more, k, x) {
      if k == |s| { assert (out + more)[x + Shift(s, k)] == more[x - CursorAt(s, k)] == text[x]; }
    }
  }

  /** The text and the output are the same gaps, woven with the chosen spans in the one and with
      their translations in the other: each chosen span is replaced once and nothing else changes. */
  method Render(text: string, s: seq<Candidate>) returns (out: string)
    requires Laid(s) && forall i :: 0 <= i < |s| ==> Fits(s[i], |text|)
    ensures text == Weave(Gaps(text, s), Originals(text, s)) + RestOf(text, s)
    ensures out == Weave(Gaps(text, s), Translations(s)) + RestOf(text, s)
    ensures Replaced(text, s, out)
  {
    hide Weave, ReplacedUpTo, Replaced;
    out := "";
    var cursor := 0;
    WeaveNothing();
    NothingReplaced(text, s);
    for k := 0 to |s|
      invariant cursor == CursorAt(s, k) <= |text| && (forall i :: k <= i < |s| ==> cursor <= s[i].start)
      invariant text[..cursor] == Weave(Gaps(text, s[..k]), Originals(text, s[..k]))
      invariant out == Weave(Gaps(text, s[..k]), Translations(s[..k]))
      invariant ReplacedUpTo(text, s, out, k)
    {
      var c := s[k];
      ghost var gap := text[cursor..c.start];
      assert Gaps(text, s[..k + 1]) == Gaps(text, s[..k]) + [gap];
      assert Originals(text, s[..k + 1]) == Originals(text, s[..k]) + [SpanOf(text, c)];
      assert Translations(s[..k + 1]) == Translations(s[..k]) + [c.msgstr];
      WeaveMore(Gaps(text, s[..k]), Originals(text, s[..k]), gap, SpanOf(text, c));
      WeaveMore(Gaps(text, s[..k]), Translations(s[..k]), gap, c.msgstr);
      ReplacedNext(text, s, out, k, gap + c.msgstr);
      assert out + gap + c.msgstr == out + (gap + c.msgstr);
      out := out + text[cursor..c.start];
      out := out + c.msgstr;
      assert text[..c.end] == text[..cursor] + gap + text[c.start..c.end];
      cursor := c.end;
    }
    assert s[..|s|] == s;
    assert text == text[..cursor] + text[cursor..];
    ReplacedAll(text, s, out);
    out := out + text[cursor..];
  }

  lemma NothingReplaced(text: string, s: seq<Candidate>)
    ensures ReplacedUpTo(text, s, "", 0)
  {
  }

  lemma WeaveNothing()
    ensures Weave([], []) == ""
  {
  }

  // ----- protected ranges

  datatype Range = Range(start: nat, end: nat)

  ghost predicate Covers(ranges: seq<Range>, x: int) {
    exists i :: 0 <= i < |ranges| && ranges[i].start <= x < ranges[i].end
  }

  ghost predicate NonEmpty(ranges: seq<Range>) {
    forall i :: 0 <= i < |ranges| ==> ranges[i].start < ranges[i].end
  }

  /** A gap lies between any two ranges. */
  ghost predicate Separated(ranges: seq<Range>) {
    NonEmpty(ranges) && forall i, j :: 0 <= i < j < |ranges| ==> ranges[i].end < ranges[j].start
  }

  /** Merging ranges sorted by their starts: the same characters, in separated ranges. */
  method Merge(ranges: seq<Range>) returns (merged: seq<Range>)
    requires NonEmpty(ranges)
    requires forall i, j :: 0 <= i < j < |ranges| ==> ranges[i].start <= ranges[j].start
    ensures Separated(merged)
    ensures forall x :: Covers(merged, x) <==> Covers(ranges, x)
  {
    merged := [];
    for k := 0 to |ranges|
      invariant Separated(merged)
      invariant merged != [] ==> k > 0 && merged[|merged| - 1].start <= ranges[k - 1].start
      invariant forall x :: Covers(merged, x) <==> Covers(ranges[..k], x)
    {
      var r := ranges[k];
      CoversMore(ranges[..k], r);
      assert ranges[..k + 1] == ranges[..k] + [r];
      if merged != [] && r.start <= merged[|merged| - 1].end {
        var last := merged[|merged| - 1];
        var front := merged[..|merged| - 1];
        CoversMore(front, last);
        assert merged == front + [last];
        CoversMore(front, Range(last.start, Max(last.end, r.end)));
        merged := merged[|merged| - 1 := Range(last.start, Max(last.end, r.end))];
        assert merged == front + [Range(last.start, Max(last.end, r.end))];
      } else {
        CoversMore(merged, r);
        merged := merged + [r];
      }
    }
    assert ranges[..|ranges|] == ranges;
  }

  lemma CoversMore(ranges: seq<Range>, r: Range)
    ensures forall x :: Covers(ranges + [r], x) <==> Covers(ranges, x) || r.start <= x < r.end
  {
    forall x ensures Covers(ranges + [r], x) <==> Covers(ranges, x) || r.start <= x < r.end {
      if Covers(ranges, x) {
        var i :| 0 <= i < |ranges| && ranges[i].start <= x < ranges[i].end;
        assert (ranges + [r])[i].start <= x < (ranges + [r])[i].end;
      }
      if r.start <= x < r.end { assert (ranges + [r])[|ranges|].start <= x < (ranges + [r])[|ranges|].end; }
    }
  }

  /** The test that skips a match: it lies inside one protected range. */
  predicate FullyProtected(protected: seq<Range>, start: nat, end: nat) {
    exists i :: 0 <= i < |protected| && start >= protected[i].start && end <= protected[i].end
  }

  /** Over separated ranges that test says exactly that all its characters are protected. */
  lemma FullyProtectedMeaning(protected: seq<Range>, start: nat, end: nat)
    requires Separated(protected) && start < end
    ensures FullyProtected(protected, start, end) <==> forall x :: start <= x < end ==> Covers(protected, x)
  {
    if FullyProtected(protected, start, end) {
      var i :| 0 <= i < |protected| && start >= protected[i].start && end <= protected[i].end;
      forall x | start <= x < end ensures Covers(protected, x) {
        assert protected[i].start <= x < protected[i].end;
      }
    }
    if forall x :: start <= x < end ==> Covers(protected, x) {
      assert Covers(protected, start);
      var i :| 0 <= i < |protected| && protected[i].start <= start < protected[i].end;
      var gap := protected[i].end;
      GapAfter(protected, i);
      assert !Covers(protected, gap);
    }
  }

  lemma GapAfter(ranges: seq<Range>, i: nat)
    requires Separated(ranges) && i < |ranges|
    ensures !Covers(ranges, ranges[i].end)
  {
    forall j | 0 <= j < |ranges| ensures !(ranges[j].start <= ranges[i].end < ranges[j].end) {
      assert i < j ==> ranges[i].end < ranges[j].start;
      assert j < i ==> ranges[j].end < ranges[i].start;
    }
  }

  // ----- one text segment

  predicate Occurs(text: string, msgid: string, a: int) {
    0 <= a && a + |msgid| <= |text| && text[a..a + |msgid|] == msgid
  }

  /** The first occurrence at or after `from`, or -1. */
  method FindFrom(text: string, msgid: string, from: nat) returns (at: int)
    requires from <= |text|
    ensures at == -1 ==> forall a :: from <= a ==> !Occurs(text, msgid, a)
    ensures at != -1 ==> from <= at && Occurs(text, msgid, at) && forall a :: from <= a < at ==> !Occurs(text, msgid, a)
  {
    at := from;
    while at + |msgid| <= |text|
      invariant from <= at && forall a :: from <= a < at ==> !Occurs(text, msgid, a)
    {
      if text[at..at + |msgid|] == msgid { return; }
      at := at + 1;
    }
    at := -1;
  }

  /** Matches that do not overlap and lie before `upTo`, where every occurrence before it begins inside one. */
  ghost predicate Matched(text: string, msgid: string, spans: seq<Range>, upTo: int) {
    && (forall i :: 0 <= i < |spans| ==>
          Occurs(text, msgid, spans[i].start) && spans[i].end == spans[i].start + |msgid| <= upTo)
    && (forall i, j :: 0 <= i < j < |spans| ==> spans[i].end <= spans[j].start)
    && forall a :: a < upTo && Occurs(text, msgid, a) ==> Covers(spans, a)
  }

  lemma MatchAdded(text: string, msgid: string, spans: seq<Range>, from: int, start: nat)
    requires Matched(text, msgid, spans, from) && from <= start && Occurs(text, msgid, start)
    requires forall a :: from <= a < start ==> !Occurs(text, msgid, a)
    ensures Matched(text, msgid, spans + [Range(start, start + |msgid|)], start + |msgid|)
  {
    CoversMore(spans, Range(start, start + |msgid|));
    hide Occurs, Covers;
  }

  /** Search onwards from the end of each match. */
  method ExactMatches(text: string, msgid: string) returns (spans: seq<Range>)
    requires |msgid| > 0
    ensures Matched(text, msgid, spans, |text|)
    ensures forall i :: 0 <= i < |spans| ==>
              spans[i].start < spans[i].end <= |text| && text[spans[i].start..spans[i].end] == msgid
    ensures forall a :: 0 <= a <= |text| - |msgid| && text[a..a + |msgid|] == msgid ==> Covers(spans, a)
  {
    hide Occurs, Covers, Matched;
    spans := [];
    var from := 0;
    NoMatches(text, msgid);
    while true
      invariant from <= |text| && Matched(text, msgid, spans, from)
      decreases |text| - from
    {
      var start := FindFrom(text, msgid, from);
      if start == -1 {
        NoMoreMatches(text, msgid, spans, from);
        MatchesMean(text, msgid, spans);
        break;
      }
      MatchAdded(text, msgid, spans, from, start);
      spans := spans + [Range(start, start + |msgid|)];
      from := start + |msgid|;
    }
  }

  lemma NoMatches(text: string, msgid: string)
    ensures Matched(text, msgid, [], 0)
  {
  }

  /** The matches read msgid, and wherever the text reads msgid one of them has begun. */
  lemma MatchesMean(text: string, msgid: string, spans: seq<Range>)
    requires |msgid| > 0 && Matched(text, msgid, spans, |text|)
    ensures forall i :: 0 <= i < |spans| ==>
              spans[i].start < spans[i].end <= |text| && text[spans[i].start..spans[i].end] == msgid
    ensures forall a :: 0 <= a <= |text| - |msgid| && text[a..a + |msgid|] == msgid ==> Covers(spans, a)
  {
    hide Covers;
    forall a | 0 <= a <= |text| - |msgid| && text[a..a + |msgid|] == msgid ensures Covers(spans, a) {
      assert Occurs(text, msgid, a);
    }
  }

  lemma NoMoreMatches(text: string, msgid: string, spans: seq<Range>, from: nat)
    requires Matched(text, msgid, spans, from) && from <= |text| && forall a :: from <= a ==> !Occurs(text, msgid, a)
    ensures Matched(text, msgid, spans, |text|)
  {
    hide Occurs, Covers;
  }

  /** Longest first, then in text order. */
  predicate LongerFirst(a: Candidate, b: Candidate) {
    Length(a) > Length(b) || (Length(a) == Length(b) && a.start <= b.start)
  }

  lemma SortedByLength(cands: seq<Candidate>)
    ensures ByLength(Sort(LongerFirst, cands)) && forall c :: c in Sort(LongerFirst, cands) <==> c in cands
  {
    hide Sort;
    SortSame(LongerFirst, cands);
    SortOrdered(LongerFirst, cands);
  }

  /** What the reference takes when the longest come first: no candidate is lost to a shorter one. */
  lemma GreedyLongest(sorted: seq<Candidate>)
    requires ByLength(sorted) && forall i :: 0 <= i < |sorted| ==> sorted[i].start < sorted[i].end
    ensures forall c :: c in Greedy(sorted) ==> c in sorted
    ensures forall c :: c in sorted ==> exists d :: d in Greedy(sorted) && Overlap(d, c) && Length(d) >= Length(c)
  {
    hide Greedy, ByLength, Overlap, Length;
    forall c | c in Greedy(sorted) ensures c in sorted { var j := IndexOfChosen(sorted, c); }
    forall c | c in sorted ensures exists d :: d in Greedy(sorted) && Overlap(d, c) && Length(d) >= Length(c) {
      var i :| 0 <= i < |sorted| && sorted[i] == c;
      var j := LeftOutFor(sorted, i);
    }
  }

  lemma SameMembers(a: seq<Candidate>, b: seq<Candidate>)
    requires SameElements(a, b)
    ensures forall c :: c in a <==> c in b
  {
    assert forall c :: c in a <==> c in multiset(a);
    assert forall c :: c in b <==> c in multiset(b);
  }

  /** The two have a character in common. */
  ghost predicate Share(a: Candidate, b: Candidate) { exists x :: Inside(a, x) && Inside(b, x) }

  predicate Inside(c: Candidate, x: int) { c.start <= x < c.end }

  lemma OverlapShares(a: Candidate, b: Candidate)
    requires a.start < a.end && b.start < b.end
    ensures Overlap(a, b) <==> Share(a, b)
  {
    if Overlap(a, b) {
      var x := Max(a.start, b.start);
      assert Inside(a, x) && Inside(b, x);
    }
  }

  /** Candidate i of the list comes before candidate j: longer; as long and further to the front of
      the text; or at the same place and not later in the list. */
  predicate ComesBefore(cands: seq<Candidate>, i: nat, j: nat)
    requires i < |cands| && j < |cands|
  {
    var a, b := cands[i], cands[j];
    || a.end - a.start > b.end - b.start
    || (a.end - a.start == b.end - b.start && (a.start < b.start || (a.start == b.start && i <= j)))
  }

  /** Candidate j is chosen, or shares a character with a chosen one that comes before it. */
  ghost predicate Decided(cands: seq<Candidate>, chosen: seq<Candidate>, j: nat) {
    && j < |cands|
    && exists i: nat :: i < |cands| && cands[i] in chosen && Share(cands[i], cands[j]) && ComesBefore(cands, i, j)
  }

  ghost predicate EachDecided(cands: seq<Candidate>, chosen: seq<Candidate>) {
    forall j: nat :: j < |cands| ==> Decided(cands, chosen, j)
  }

  lemma SortedDecides(cands: seq<Candidate>, perm: seq<int>, i: nat)
    requires ComesFrom(cands, Sort(LongerFirst, cands), perm) && StableBy(LongerFirst, Sort(LongerFirst, cands), perm)
    requires i < |cands| && forall k :: 0 <= k < |cands| ==> cands[k].start < cands[k].end
    ensures 0 <= perm[i] < |cands| && Decided(cands, Greedy(Sort(LongerFirst, cands)), perm[i])
  {
    hide Sort, Greedy;
    var sorted := Sort(LongerFirst, cands);
    var j := LeftOutFor(sorted, i);
    OverlapShares(sorted[j], sorted[i]);
    assert ComesBefore(cands, perm[j], perm[i]);
  }

  /** The greedy choice from the sorted list decides every candidate. */
  lemma AllDecided(cands: seq<Candidate>)
    requires forall k :: 0 <= k < |cands| ==> cands[k].start < cands[k].end
    ensures EachDecided(cands, Greedy(Sort(LongerFirst, cands)))
  {
    var perm := SortStable(LongerFirst, cands);
    PermutationOnto(perm, |cands|);
    hide Sort, Greedy, Decided;
    forall j: nat | j < |cands| ensures Decided(cands, Greedy(Sort(LongerFirst, cands)), j) {
      assert j in perm;
      var i :| 0 <= i < |perm| && perm[i] == j;
      SortedDecides(cands, perm, i);
    }
  }

  lemma SameDecided(cands: seq<Candidate>, a: seq<Candidate>, b: seq<Candidate>)
    requires EachDecided(cands, a) && forall c :: c in a <==> c in b
    ensures EachDecided(cands, b)
  {
    forall j: nat | j < |cands| ensures Decided(cands, b, j) { assert Decided(cands, a, j); }
  }

  /** out is text with the chosen candidates replaced, each once: the reference's choice among the
      sorted candidates, in which no candidate is lost to one that comes after it. */
  ghost predicate Applied(text: string, cands: seq<Candidate>, out: string, chosen: seq<Candidate>) {
    && Laid(chosen) && SameElements(chosen, Greedy(Sort(LongerFirst, cands)))
    && (forall c :: c in chosen ==> c in cands)
    && (forall c :: c in cands ==> exists d :: d in chosen && Overlap(d, c) && Length(d) >= Length(c))
    && text == Weave(Gaps(text, chosen), Originals(text, chosen)) + RestOf(text, chosen)
    && out == Weave(Gaps(text, chosen), Translations(chosen)) + RestOf(text, chosen)
    && EachDecided(cands, chosen) && Replaced(text, chosen, out)
  }

  /** Sort the candidates, choose among them and apply the choice. */
  method ApplyCandidates(text: string, cands: seq<Candidate>) returns (out: string)
    requires forall i :: 0 <= i < |cands| ==> Fits(cands[i], |text|)
    ensures exists chosen :: Applied(text, cands, out, chosen)
  {
    hide Sort, Weave, Gaps, Originals, Translations, RestOf, Greedy, Laid, SameElements, Overlap, Length, LongerFirst,
         ByLength, Replaced, EachDecided;
    var sorted := Sort(LongerFirst, cands);
    SortedByLength(cands);
    forall i | 0 <= i < |sorted| ensures Fits(sorted[i], |text|) { assert sorted[i] in sorted; }
    GreedyLongest(sorted);
    var selected := Select(sorted);
    SameMembers(selected, Greedy(sorted));
    AllDecided(cands);
    SameDecided(cands, Greedy(sorted), selected);
    forall i | 0 <= i < |selected| ensures Fits(selected[i], |text|) { assert selected[i] in selected; }
    out := Render(text, selected);
    assert Applied(text, cands, out, selected);
  }
}
