/** Finding the parts of a Markdown text that must not be translated. */
module Markdown {
  import opened Translate

  // ----- code spans (section 6.1 of CommonMark 0.31.2, without backslash escapes)

  predicate Tick(text: string, i: int) { 0 <= i < |text| && text[i] == '`' }

  ghost predicate Ticks(text: string, a: int, n: int) {
    0 <= a && a + n <= |text| && forall i :: a <= i < a + n ==> Tick(text, i)
  }

  /** The n characters from a on are a backtick string: ticks only, with no tick on either side. */
  ghost predicate IsRun(text: string, a: int, n: int) {
    n > 0 && Ticks(text, a, n) && !Tick(text, a - 1) && !Tick(text, a + n)
  }

  /** The n-tick run at a is closed by the one at c: the first later run of its length. */
  ghost predicate ClosedBy(text: string, a: int, n: int, c: int) {
    a + n <= c && IsRun(text, c, n) && forall d :: a + n <= d < c ==> !IsRun(text, d, n)
  }

  ghost predicate NeverClosed(text: string, a: int, n: int) {
    forall d :: a + n <= d ==> !IsRun(text, d, n)
  }

  /** From an opening run through its closing run. */
  ghost predicate IsCodeSpan(text: string, r: Range) {
    exists n :: IsRun(text, r.start, n) && ClosedBy(text, r.start, n, r.end - n)
  }

  /** The spans stand in text order, each an opening run closed by the first run of the same
      length, and a run outside all of them has no such run after it. */
  ghost predicate CodeSpans(text: string, ranges: seq<Range>, upTo: int) {
    && (forall i :: 0 <= i < |ranges| ==> IsCodeSpan(text, ranges[i]) && ranges[i].start < ranges[i].end <= upTo)
    && (forall i, j :: 0 <= i < j < |ranges| ==> ranges[i].end <= ranges[j].start)
    && forall a, n :: IsRun(text, a, n) && a < upTo && !Covers(ranges, a) ==> NeverClosed(text, a, n)
  }

  lemma RunUnique(text: string, a: int, m: int, n: int)
    requires IsRun(text, a, m) && IsRun(text, a, n)
    ensures m == n
  {
    assert m < n ==> Tick(text, a + m);
    assert n < m ==> Tick(text, a + n);
  }

  /** The first tick at or after pos, or -1. */
  method FindTick(text: string, pos: nat) returns (at: int)
    requires pos <= |text|
    ensures at == -1 ==> forall i :: pos <= i ==> !Tick(text, i)
    ensures at != -1 ==> pos <= at && Tick(text, at) && forall i :: pos <= i < at ==> !Tick(text, i)
  {
    at := pos;
    while at < |text|
      invariant pos <= at <= |text| && forall i :: pos <= i < at ==> !Tick(text, i)
    {
      if text[at] == '`' {
        return;
      }
      at := at + 1;
    }
    at := -1;
  }

  /** Where n ticks in a row first occur at or after pos, or -1. */
  method FindTicks(text: string, n: nat, pos: nat) returns (at: int)
    requires n > 0 && pos <= |text|
    ensures at == -1 ==> forall c :: pos <= c ==> !Ticks(text, c, n)
    ensures at != -1 ==> pos <= at && Ticks(text, at, n) && forall c :: pos <= c < at ==> !Ticks(text, c, n)
  {
    at := pos;
    while at + n <= |text|
      invariant pos <= at && forall c :: pos <= c < at ==> !Ticks(text, c, n)
    {
      var k := 0;
      while k < n && text[at + k] == '`'
        invariant 0 <= k <= n && Ticks(text, at, k)
      {
        k := k + 1;
      }
      if k == n {
        return;
      }
      assert !Tick(text, at + k);
      at := at + 1;
    }
    at := -1;
  }

  /** The length of the run that starts at `start`. */
  method RunLength(text: string, start: nat) returns (n: nat)
    requires Tick(text, start) && !Tick(text, start - 1)
    ensures IsRun(text, start, n)
  {
    n := 1;
    while start + n < |text| && text[start + n] == '`'
      invariant n > 0 && Ticks(text, start, n)
    {
      n := n + 1;
    }
  }

  /** The first n-tick run from `pos` on, or -1. */
  method FindCloser(text: string, n: nat, pos: nat) returns (close: int)
    requires n > 0 && pos <= |text|
    ensures close == -1 ==> forall c :: pos <= c ==> !IsRun(text, c, n)
    ensures close != -1 ==> pos <= close && IsRun(text, close, n) && forall c :: pos <= c < close ==> !IsRun(text, c, n)
  {
    var from := pos;
    while true
      invariant pos <= from <= |text| && forall c :: pos <= c < from ==> !IsRun(text, c, n)
      decreases |text| - from
    {
      close := FindTicks(text, n, from);
      if close == -1 {
        return;
      }
      if (close == 0 || text[close - 1] != '`') && (close + n == |text| || text[close + n] != '`') {
        return;
      }
      from := close + 1;
    }
  }

  /** The scanner finds exactly the code spans, and terminates. */
  method InlineCodeRanges(text: string) returns (ranges: seq<Range>)
    ensures CodeSpans(text, ranges, |text|)
  {
    assert CodeSpans(text, [], 0) by { NoSpansYet(text); }
    hide IsRun, Ticks, Tick, CodeSpans;
    ranges := [];
    var pos := 0;
    while true
      invariant 0 <= pos <= |text| && (pos == 0 || !Tick(text, pos))
      invariant CodeSpans(text, ranges, pos)
      decreases |text| - pos
    {
      var start := FindTick(text, pos);
      if start == -1 {
        NoMoreRuns(text, ranges, pos);
        return;
      }
      NoTickBefore(text, start);
      var n := RunLength(text, start);
      RunEnds(text, start, n);
      var close := FindCloser(text, n, start + n);
      if close == -1 {
        SkipOpener(text, ranges, pos, start, n);
        pos := start + n;
      } else {
        RunEnds(text, close, n);
        TakeSpan(text, ranges, pos, start, n, close);
        ranges := ranges + [Range(start, close + n)];
        pos := close + n;
      }
    }
  }

  lemma NoSpansYet(text: string)
    ensures CodeSpans(text, [], 0)
  {
  }

  lemma NoTickBefore(text: string, start: nat)
    ensures start == 0 ==> !Tick(text, start - 1)
  {
  }

  lemma RunEnds(text: string, a: int, n: int)
    requires IsRun(text, a, n)
    ensures n > 0 && 0 <= a && a + n <= |text| && !Tick(text, a + n)
  {
  }

  /** The start of a code span is in one of the listed spans. */
  lemma StartCovered(text: string, ranges: seq<Range>, r: Range)
    requires CodeSpans(text, ranges, |text|) && IsCodeSpan(text, r) && r.start < |text|
    ensures Covers(ranges, r.start)
  {
    hide IsRun, Covers;
    var n :| IsRun(text, r.start, n) && ClosedBy(text, r.start, n, r.end - n);
  }

  lemma SpanByStart(text: string, a: Range, b: Range)
    requires IsCodeSpan(text, a) && IsCodeSpan(text, b) && a.start == b.start
    ensures a == b
  {
    hide IsRun;
    var m :| IsRun(text, a.start, m) && ClosedBy(text, a.start, m, a.end - m);
    var n :| IsRun(text, b.start, n) && ClosedBy(text, b.start, n, b.end - n);
    RunUnique(text, a.start, m, n);
  }

  /** Where the spans of b before the k-th equal those of a, its k-th starts no later than a's. */
  lemma NoLaterStart(text: string, a: seq<Range>, b: seq<Range>, k: nat)
    requires CodeSpans(text, a, |text|) && CodeSpans(text, b, |text|) && k <= |b| && k < |a| && a[..k] == b[..k]
    ensures k < |b| && b[k].start <= a[k].start
  {
    hide IsCodeSpan, IsRun, NeverClosed;
    StartCovered(text, b, a[k]);
    var j :| 0 <= j < |b| && b[j].start <= a[k].start < b[j].end;
    assert forall i :: 0 <= i < k ==> a[..k][i] == b[..k][i];
    assert j > k ==> b[k].end <= b[j].start;
  }

  lemma {:induction false} SpansAgree(text: string, a: seq<Range>, b: seq<Range>, k: nat)
    requires CodeSpans(text, a, |text|) && CodeSpans(text, b, |text|) && k <= |a|
    ensures k <= |b| && a[..k] == b[..k]
  {
    hide IsCodeSpan, IsRun, NeverClosed;
    if k > 0 {
      SpansAgree(text, a, b, k - 1);
      NoLaterStart(text, a, b, k - 1);
      NoLaterStart(text, b, a, k - 1);
      SpanByStart(text, a[k - 1], b[k - 1]);
      assert a[..k] == a[..k - 1] + [a[k - 1]] && b[..k] == b[..k - 1] + [b[k - 1]];
    }
  }

  /** A text has only one list of code spans. */
  lemma CodeSpansUnique(text: string, a: seq<Range>, b: seq<Range>)
    requires CodeSpans(text, a, |text|) && CodeSpans(text, b, |text|)
    ensures a == b
  {
    hide CodeSpans;
    SpansAgree(text, a, b, |a|);
    SpansAgree(text, b, a, |b|);
    assert a[..|a|] == a && b[..|b|] == b;
  }

  lemma NoMoreRuns(text: string, ranges: seq<Range>, pos: nat)
    requires CodeSpans(text, ranges, pos) && pos <= |text| && forall i :: pos <= i ==> !Tick(text, i)
    ensures CodeSpans(text, ranges, |text|)
  {
    assert forall a, n :: IsRun(text, a, n) ==> Tick(text, a);
  }

  lemma SkipOpener(text: string, ranges: seq<Range>, pos: int, start: nat, n: nat)
    requires CodeSpans(text, ranges, pos) && 0 <= pos <= start && (forall i :: pos <= i < start ==> !Tick(text, i))
    requires IsRun(text, start, n) && NeverClosed(text, start, n)
    ensures CodeSpans(text, ranges, start + n)
  {
    forall a, m | IsRun(text, a, m) && a < start + n && !Covers(ranges, a) ensures NeverClosed(text, a, m) {
      assert Tick(text, a) && !Tick(text, a - 1);
      if a >= pos {
        assert a == start;
        RunUnique(text, start, m, n);
      }
    }
  }

  lemma TakeSpan(text: string, ranges: seq<Range>, pos: int, start: nat, n: nat, close: nat)
    requires CodeSpans(text, ranges, pos) && 0 <= pos <= start && (forall i :: pos <= i < start ==> !Tick(text, i))
    requires IsRun(text, start, n) && ClosedBy(text, start, n, close)
    ensures CodeSpans(text, ranges + [Range(start, close + n)], close + n)
  {
    hide ClosedBy, NeverClosed, IsCodeSpan, IsRun, Covers;
    var r := Range(start, close + n);
    CoversMore(ranges, r);
    SpanFound(text, r, n);
    forall a, m | IsRun(text, a, m) && a < close + n && !Covers(ranges + [r], a) ensures NeverClosed(text, a, m) {
      StartsWithTick(text, a, m);
    }
  }

  lemma SpanFound(text: string, r: Range, n: nat)
    requires IsRun(text, r.start, n) && ClosedBy(text, r.start, n, r.end - n)
    ensures IsCodeSpan(text, r) && r.start + n + n <= r.end && n > 0
  {
  }

  lemma StartsWithTick(text: string, a: int, n: int)
    requires IsRun(text, a, n)
    ensures Tick(text, a)
  {
  }

  // ----- fenced blocks

  /** A line that opens or may close a fenced block. */
  datatype Fence = Fence(start: nat, end: nat, marker: char, bare: bool)

  datatype Segment = Segment(text: string, isCode: bool)

  function Concat(segments: seq<Segment>): string {
    if segments == [] then "" else Concat(segments[..|segments| - 1]) + segments[|segments| - 1].text
  }

  lemma ConcatMore(segments: seq<Segment>, s: Segment)
    ensures Concat(segments + [s]) == Concat(segments) + s.text
  {
    assert (segments + [s])[..|segments|] == segments;
  }

  ghost predicate InOrder(fences: seq<Fence>, length: nat) {
    && (forall i :: 0 <= i < |fences| ==> fences[i].start < fences[i].end <= length)
    && forall i, j :: 0 <= i < j < |fences| ==> fences[i].end <= fences[j].start
  }

  /** Fence j can close a block that fence i opened. */
  predicate CanClose(fences: seq<Fence>, i: int, j: int) {
    0 <= i < j < |fences| && fences[j].bare && fences[j].marker == fences[i].marker
  }

  /** The block that fence i opens ends with the first fence that can close it, else with the document. */
  ghost predicate BlockEnds(fences: seq<Fence>, i: int, end: int, length: nat) {
    || (exists j :: CanClose(fences, i, j) && end == fences[j].end && forall k :: i < k < j ==> !CanClose(fences, i, k))
    || (end == length && forall k :: !CanClose(fences, i, k))
  }

  /** content[from..to] is code: one whole block.  Or it is text, and no fence starts in it. */
  ghost predicate Part(fences: seq<Fence>, from: int, to: int, isCode: bool, length: nat) {
    if isCode then exists i :: 0 <= i < |fences| && fences[i].start == from && BlockEnds(fences, i, to, length)
    else forall i :: 0 <= i < |fences| ==> !(from <= fences[i].start < to)
  }

  /** The segments are content cut at `cuts` into code and text. */
  ghost predicate Parts(content: string, fences: seq<Fence>, segments: seq<Segment>, cuts: seq<int>) {
    && |cuts| == |segments| + 1 && cuts[0] == 0
    && (forall k, m :: 0 <= k < |segments| && m == k + 1 ==>
          0 <= cuts[k] < cuts[m] <= |content| && segments[k].text == content[cuts[k]..cuts[m]]
          && Part(fences, cuts[k], cuts[m], segments[k].isCode, |content|))
    && forall k, m :: 0 <= k < |segments| && m == k + 1 < |segments| ==> segments[k].isCode || segments[m].isCode
  }

  lemma PartAdded(content: string, fences: seq<Fence>, segments: seq<Segment>, cuts: seq<int>, to: int, isCode: bool)
    requires Parts(content, fences, segments, cuts) && 0 <= cuts[|segments|] < to <= |content|
    requires Part(fences, cuts[|segments|], to, isCode, |content|)
    requires isCode || segments == [] || segments[|segments| - 1].isCode
    ensures Parts(content, fences, segments + [Segment(content[cuts[|segments|]..to], isCode)], cuts + [to])
  {
    hide Part;
  }

  /** Split into text and code: nothing is lost, the code segments are exactly the fenced blocks, and
      text between two blocks stays in one piece. */
  method SplitByCodeBlocks(content: string, fences: seq<Fence>) returns (segments: seq<Segment>, ghost cuts: seq<int>)
    requires InOrder(fences, |content|)
    ensures Concat(segments) == content
    ensures content != "" ==> Parts(content, fences, segments, cuts) && cuts[|segments|] == |content|
  {
    hide Concat, Parts, Part, BlockEnds;
    ConcatNone();
    segments, cuts := [], [0];
    assert Parts(content, fences, [], [0]) by { NoParts(content, fences); }
    if fences == [] {
      ConcatMore([], Segment(content, false));
      assert content[0..|content|] == content;
      TextPart(fences, 0, |content|, |content|);
      if content != "" { PartAdded(content, fences, segments, cuts, |content|, false); }
      segments, cuts := segments + [Segment(content, false)], cuts + [|content|];
      return;
    }
    var pos, inCode, marker := 0, false, '`';
    ghost var opener := 0;
    for i := 0 to |fences|
      invariant 0 <= pos <= |content| && Concat(segments) == content[..pos]
      invariant Parts(content, fences, segments, cuts) && |cuts| == |segments| + 1 && cuts[|segments|] == pos
      invariant forall j :: i <= j < |fences| ==> pos <= fences[j].start
      invariant !inCode ==>
                  (forall j :: 0 <= j < i ==> fences[j].start < pos)
                  && (segments == [] || segments[|segments| - 1].isCode)
      invariant inCode ==> 0 <= opener < i && pos == fences[opener].start && marker == fences[opener].marker
      invariant inCode ==> forall k :: k < i ==> !CanClose(fences, opener, k)
    {
      var f := fences[i];
      if !inCode {
        if f.start > pos {
          TextPart(fences, pos, f.start, |content|);
          PartAdded(content, fences, segments, cuts, f.start, false);
          ConcatMore(segments, Segment(content[pos..f.start], false));
          segments, cuts := segments + [Segment(content[pos..f.start], false)], cuts + [f.start];
          assert content[..f.start] == content[..pos] + content[pos..f.start];
        }
        pos, inCode, marker, opener := f.start, true, f.marker, i;
      } else if f.marker == marker && f.bare {
        BlockClosed(fences, opener, i, |content|);
        CodePart(fences, opener, f.end, |content|);
        PartAdded(content, fences, segments, cuts, f.end, true);
        ConcatMore(segments, Segment(content[pos..f.end], true));
        segments, cuts := segments + [Segment(content[pos..f.end], true)], cuts + [f.end];
        assert content[..f.end] == content[..pos] + content[pos..f.end];
        pos, inCode := f.end, false;
      }
    }
    if pos < |content| {
      if inCode {
        BlockOpen(fences, opener, |content|);
        CodePart(fences, opener, |content|, |content|);
      } else {
        TextPart(fences, pos, |content|, |content|);
      }
      PartAdded(content, fences, segments, cuts, |content|, inCode);
      ConcatMore(segments, Segment(content[pos..], inCode));
      assert content[pos..] == content[pos..|content|];
      segments, cuts := segments + [Segment(content[pos..], inCode)], cuts + [|content|];
      assert content == content[..pos] + content[pos..];
    } else {
      assert content[..pos] == content;
    }
  }

  lemma NoParts(content: string, fences: seq<Fence>)
    ensures Parts(content, fences, [], [0])
  {
  }

  lemma TextPart(fences: seq<Fence>, from: int, to: int, length: nat)
    requires forall i :: 0 <= i < |fences| ==> !(from <= fences[i].start < to)
    ensures Part(fences, from, to, false, length)
  {
  }

  lemma CodePart(fences: seq<Fence>, i: int, to: int, length: nat)
    requires 0 <= i < |fences| && BlockEnds(fences, i, to, length)
    ensures Part(fences, fences[i].start, to, true, length)
  {
  }

  lemma BlockClosed(fences: seq<Fence>, i: int, j: int, length: nat)
    requires CanClose(fences, i, j) && forall k :: k < j ==> !CanClose(fences, i, k)
    ensures BlockEnds(fences, i, fences[j].end, length)
  {
  }

  lemma BlockOpen(fences: seq<Fence>, i: int, length: nat)
    requires forall k :: k < |fences| ==> !CanClose(fences, i, k)
    ensures BlockEnds(fences, i, length, length)
  {
  }

  lemma ConcatNone()
    ensures Concat([]) == ""
  {
  }
}
