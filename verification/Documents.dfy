/** Translating a Markdown document: the parts put together.

    What regular expressions find is a parameter: the fence lines, the URLs and link targets, and the
    occurrences of a reflowed msgid. */
module Documents {
  import opened Lists
  import opened Translate
  import opened Markdown

  datatype Entry = Entry(msgid: string, msgstr: string)

  datatype Engine = Engine(isSpace: char -> bool, fences: string -> seq<Fence>, links: string -> seq<Range>,
                           reflowSafe: string -> bool, reflow: (string, string) -> seq<Range>)

  ghost predicate SpansIn(spans: seq<Range>, length: nat) {
    forall i :: 0 <= i < |spans| ==> spans[i].start < spans[i].end <= length
  }

  /** Matches are not empty and lie in the text; fence lines come in order. */
  ghost predicate Proper(e: Engine) {
    && (forall text :: InOrder(e.fences(text), |text|))
    && (forall text :: SpansIn(e.links(text), |text|))
    && forall text, msgid :: SpansIn(e.reflow(text, msgid), |text|)
  }

  predicate Blank(e: Engine, s: string) { forall i :: 0 <= i < |s| ==> e.isSpace(s[i]) }

  // ----- protected text

  predicate StartsFirst(a: Range, b: Range) { a.start < b.start || (a.start == b.start && a.end <= b.end) }

  ghost predicate Guarded(code: seq<Range>, links: seq<Range>, x: int) { Covers(code, x) || Covers(links, x) }

  lemma CoversJoin(a: seq<Range>, b: seq<Range>, x: int)
    ensures Covers(a + b, x) <==> Covers(a, x) || Covers(b, x)
  {
    if Covers(a, x) {
      var i :| 0 <= i < |a| && a[i].start <= x < a[i].end;
      assert (a + b)[i] == a[i];
    }
    if Covers(b, x) {
      var i :| 0 <= i < |b| && b[i].start <= x < b[i].end;
      assert (a + b)[|a| + i] == b[i];
    }
  }

  lemma CoversSame(a: seq<Range>, b: seq<Range>, x: int)
    requires forall r :: r in a <==> r in b
    ensures Covers(a, x) <==> Covers(b, x)
  {
    if Covers(a, x) {
      var i :| 0 <= i < |a| && a[i].start <= x < a[i].end;
      assert a[i] in b;
    }
    if Covers(b, x) {
      var i :| 0 <= i < |b| && b[i].start <= x < b[i].end;
      assert b[i] in a;
    }
  }

  /** The code spans and the links, merged: the same characters, in separated ranges. */
  method ProtectedRanges(text: string, links: seq<Range>) returns (merged: seq<Range>, ghost code: seq<Range>)
    requires SpansIn(links, |text|)
    ensures CodeSpans(text, code, |text|) && Separated(merged)
    ensures forall x :: Covers(merged, x) <==> Guarded(code, links, x)
  {
    hide Sort, Covers, IsCodeSpan, IsRun, NeverClosed;
    var spans := InlineCodeRanges(text);
    var ranges := spans + links;
    var sorted := Sort(StartsFirst, ranges);
    SortSame(StartsFirst, ranges);
    SortOrdered(StartsFirst, ranges);
    forall i | 0 <= i < |sorted| ensures sorted[i].start < sorted[i].end { assert sorted[i] in sorted; }
    merged := Merge(sorted);
    code := spans;
    forall x ensures Covers(merged, x) <==> Guarded(code, links, x) {
      CoversSame(sorted, ranges, x);
      CoversJoin(spans, links, x);
    }
  }

  // ----- the matches of an entry

  /** The spans an entry may be applied to: its exact occurrences, else the reflowed ones of a safe msgid. */
  ghost predicate SpansOf(text: string, entry: Entry, e: Engine, spans: seq<Range>) {
    if (forall i :: 0 <= i < |entry.msgid| ==> e.isSpace(entry.msgid[i]))
       || forall i :: 0 <= i < |entry.msgstr| ==> e.isSpace(entry.msgstr[i])
    then spans == []
    else exists exact :: Matched(text, entry.msgid, exact, |text|)
                         && spans == if exact != [] then exact
                                     else if e.reflowSafe(entry.msgid) then e.reflow(text, entry.msgid) else []
  }

  method EntrySpans(text: string, entry: Entry, e: Engine) returns (spans: seq<Range>)
    requires Proper(e)
    ensures SpansOf(text, entry, e, spans) && SpansIn(spans, |text|)
  {
    hide InOrder;
    if Blank(e, entry.msgid) || Blank(e, entry.msgstr) {
      return [];
    }
    NotBlank(e, entry.msgid);
    var exact := ExactMatches(text, entry.msgid);
    spans := exact;
    if exact == [] && e.reflowSafe(entry.msgid) {
      spans := e.reflow(text, entry.msgid);
    }
    hide Matched;
    assert Matched(text, entry.msgid, exact, |text|);
  }

  lemma NotBlank(e: Engine, s: string)
    requires !Blank(e, s)
    ensures |s| > 0
  {
  }

  // ----- the candidates of a text

  predicate MatchAt(entries: seq<Entry>, spans: seq<seq<Range>>, c: Candidate, k: int, i: int) {
    && 0 <= k < |entries| && k < |spans| && 0 <= i < |spans[k]|
    && c == Candidate(spans[k][i].start, spans[k][i].end, entries[k].msgstr)
  }

  ghost predicate IsMatch(entries: seq<Entry>, spans: seq<seq<Range>>, c: Candidate) {
    exists k, i :: MatchAt(entries, spans, c, k, i)
  }

  /** Every character of the match lies in a code span or a link. */
  ghost predicate InGuarded(code: seq<Range>, links: seq<Range>, c: Candidate) {
    forall x :: c.start <= x < c.end ==> Guarded(code, links, x)
  }

  function Unprotected(protected: seq<Range>): Candidate -> bool {
    (c: Candidate) => !FullyProtected(protected, c.start, c.end)
  }

  /** The spans of one entry as candidates. */
  function Spanned(entry: Entry, spans: seq<Range>): (r: seq<Candidate>)
    ensures |r| == |spans|
  {
    seq(|spans|, i requires 0 <= i < |spans| => Candidate(spans[i].start, spans[i].end, entry.msgstr))
  }

  /** The candidates that pass the test, entry by entry and in text order. */
  function Candidates(entries: seq<Entry>, spans: seq<seq<Range>>, keep: Candidate -> bool): seq<Candidate>
    requires |spans| <= |entries|
  {
    if spans == [] then []
    else
      var n := |spans| - 1;
      Candidates(entries, spans[..n], keep) + Filter(keep, Spanned(entries[n], spans[n]))
  }

  lemma CandidatesMore(entries: seq<Entry>, spans: seq<seq<Range>>, next: seq<Range>, keep: Candidate -> bool)
    requires |spans| < |entries|
    ensures Candidates(entries, spans + [next], keep)
            == Candidates(entries, spans, keep) + Filter(keep, Spanned(entries[|spans|], next))
  {
    assert (spans + [next])[..|spans|] == spans;
  }

  lemma {:induction false} CandidatesMember(entries: seq<Entry>, spans: seq<seq<Range>>, keep: Candidate -> bool,
                                            c: Candidate)
    requires |spans| <= |entries|
    ensures c in Candidates(entries, spans, keep) <==> IsMatch(entries, spans, c) && keep(c)
  {
    if spans != [] {
      var n := |spans| - 1;
      CandidatesMember(entries, spans[..n], keep, c);
      FilterMember(keep, Spanned(entries[n], spans[n]));
      LastMatches(entries, spans, c);
    }
  }

  lemma LastMatches(entries: seq<Entry>, spans: seq<seq<Range>>, c: Candidate)
    requires 0 < |spans| <= |entries|
    ensures IsMatch(entries, spans, c)
            <==> IsMatch(entries, spans[..|spans| - 1], c) || c in Spanned(entries[|spans| - 1], spans[|spans| - 1])
  {
    var n := |spans| - 1;
    if k, i :| MatchAt(entries, spans, c, k, i) {
      assert k < n ==> MatchAt(entries, spans[..n], c, k, i);
      assert k == n ==> Spanned(entries[n], spans[n])[i] == c;
    }
    if k, i :| MatchAt(entries, spans[..n], c, k, i) { assert MatchAt(entries, spans, c, k, i); }
    if c in Spanned(entries[n], spans[n]) {
      var i :| 0 <= i < |spans[n]| && Spanned(entries[n], spans[n])[i] == c;
      assert MatchAt(entries, spans, c, n, i);
    }
  }

  lemma {:induction false} CandidatesAgree(entries: seq<Entry>, spans: seq<seq<Range>>, f: Candidate -> bool,
                                           g: Candidate -> bool)
    requires |spans| <= |entries| && forall c :: IsMatch(entries, spans, c) ==> (f(c) <==> g(c))
    ensures Candidates(entries, spans, f) == Candidates(entries, spans, g)
  {
    hide IsMatch;
    if spans != [] {
      var n := |spans| - 1;
      forall c ensures IsMatch(entries, spans, c)
                       <==> IsMatch(entries, spans[..n], c) || c in Spanned(entries[n], spans[n])
      {
        LastMatches(entries, spans, c);
      }
      CandidatesAgree(entries, spans[..n], f, g);
      FilterAgree(f, g, Spanned(entries[n], spans[n]));
    }
  }

  ghost predicate MatchOf(entries: seq<Entry>, spans: seq<seq<Range>>, c: Candidate, k: int) {
    exists i :: MatchAt(entries, spans, c, k, i)
  }

  /** Candidate a is a match of entry ks[a], and the entries come in order. */
  ghost predicate ByEntry(entries: seq<Entry>, spans: seq<seq<Range>>, cands: seq<Candidate>, ks: seq<int>) {
    && |ks| == |cands| && (forall a, b :: 0 <= a < b < |ks| ==> ks[a] <= ks[b])
    && forall a :: 0 <= a < |ks| ==> MatchOf(entries, spans, cands[a], ks[a])
  }

  lemma ByEntryMore(entries: seq<Entry>, spans: seq<seq<Range>>, cands: seq<Candidate>, ks: seq<int>,
                    last: seq<Candidate>, more: seq<int>)
    requires 0 < |spans| <= |entries| && |more| == |last| && forall i :: 0 <= i < |more| ==> more[i] == |spans| - 1
    requires ByEntry(entries, spans[..|spans| - 1], cands, ks)
    requires forall c :: c in last ==> c in Spanned(entries[|spans| - 1], spans[|spans| - 1])
    ensures ByEntry(entries, spans, cands + last, ks + more)
  {
    var n := |spans| - 1;
    var all, ks' := cands + last, ks + more;
    forall a | 0 <= a < |ks'| ensures MatchOf(entries, spans, all[a], ks'[a]) {
      if a < |ks| {
        assert MatchOf(entries, spans[..n], cands[a], ks[a]);
        var i :| MatchAt(entries, spans[..n], cands[a], ks[a], i);
        assert MatchAt(entries, spans, all[a], ks'[a], i);
      } else {
        var c := last[a - |ks|];
        assert c in last;
        var i :| 0 <= i < |spans[n]| && Spanned(entries[n], spans[n])[i] == c;
        assert MatchAt(entries, spans, all[a], ks'[a], i);
      }
    }
    forall a | 0 <= a < |ks| ensures ks[a] < n {
      assert MatchOf(entries, spans[..n], cands[a], ks[a]);
      var i :| MatchAt(entries, spans[..n], cands[a], ks[a], i);
    }
  }

  lemma {:induction false} CandidatesByEntry(entries: seq<Entry>, spans: seq<seq<Range>>, keep: Candidate -> bool)
    returns (ks: seq<int>)
    requires |spans| <= |entries|
    ensures ByEntry(entries, spans, Candidates(entries, spans, keep), ks)
  {
    ks := [];
    if spans != [] {
      var n := |spans| - 1;
      var cands, last := Candidates(entries, spans[..n], keep), Filter(keep, Spanned(entries[n], spans[n]));
      ks := CandidatesByEntry(entries, spans[..n], keep);
      FilterMember(keep, Spanned(entries[n], spans[n]));
      hide ByEntry, Filter;
      var more := seq(|last|, _ => n);
      ByEntryMore(entries, spans, cands, ks, last, more);
      ks := ks + more;
    }
  }

  /** The unprotected spans of one entry, as candidates. */
  method EntryCandidates(entry: Entry, spans: seq<Range>, protected: seq<Range>) returns (cands: seq<Candidate>)
    ensures cands == Filter(Unprotected(protected), Spanned(entry, spans))
  {
    hide FullyProtected;
    ghost var all := Spanned(entry, spans);
    cands := [];
    for k := 0 to |spans|
      invariant cands == Filter(Unprotected(protected), all[..k])
    {
      FilterStep(Unprotected(protected), all, k);
      if !FullyProtected(protected, spans[k].start, spans[k].end) {
        cands := cands + [Candidate(spans[k].start, spans[k].end, entry.msgstr)];
      }
    }
    assert all[..|spans|] == all;
  }

  ghost predicate AllSpans(text: string, entries: seq<Entry>, e: Engine, spans: seq<seq<Range>>) {
    && |spans| <= |entries|
    && forall k :: 0 <= k < |spans| ==> SpansOf(text, entries[k], e, spans[k]) && SpansIn(spans[k], |text|)
  }

  /** All matches of all entries that are not inside one protected range. */
  method Collect(text: string, entries: seq<Entry>, e: Engine, protected: seq<Range>) returns (cands: seq<Candidate>)
    requires Proper(e)
    ensures exists spans :: |spans| == |entries| && AllSpans(text, entries, e, spans)
                            && cands == Candidates(entries, spans, Unprotected(protected))
  {
    hide Proper, SpansOf, Filter, FullyProtected;
    ghost var spans: seq<seq<Range>> := [];
    cands := [];
    for k := 0 to |entries|
      invariant |spans| == k && AllSpans(text, entries, e, spans)
      invariant cands == Candidates(entries, spans, Unprotected(protected))
    {
      var next := EntrySpans(text, entries[k], e);
      var more := EntryCandidates(entries[k], next, protected);
      CandidatesMore(entries, spans, next, Unprotected(protected));
      cands, spans := cands + more, spans + [next];
    }
  }

  // ----- one text segment

  /** How a text was translated: its code spans, the spans of each entry, and the chosen matches. */
  datatype Account = Account(code: seq<Range>, spans: seq<seq<Range>>, chosen: seq<Candidate>)

  ghost predicate Eligible(entries: seq<Entry>, e: Engine, text: string, a: Account, c: Candidate) {
    IsMatch(entries, a.spans, c) && !InGuarded(a.code, e.links(text), c)
  }

  ghost function Open(code: seq<Range>, links: seq<Range>): Candidate -> bool {
    (c: Candidate) => !InGuarded(code, links, c)
  }

  /** The eligible matches, entry by entry. */
  ghost function EligibleList(entries: seq<Entry>, e: Engine, text: string, a: Account): seq<Candidate>
    requires |a.spans| <= |entries|
  {
    Candidates(entries, a.spans, Open(a.code, e.links(text)))
  }

  /** out is text with some matches of the entries replaced, each once, and nothing else changed.  A
      match is passed over if all its characters are in code spans or links, or if it overlaps one
      at least as long that is replaced; otherwise it is replaced.  Which of them is the greedy choice
      among the eligible matches: the longest, then the earliest in the text, then the first entry. */
  ghost predicate Translated(text: string, entries: seq<Entry>, e: Engine, out: string, a: Account) {
    && CodeSpans(text, a.code, |text|) && |a.spans| == |entries| && AllSpans(text, entries, e, a.spans)
        && Laid(a.chosen)
    && SameElements(a.chosen, Greedy(Sort(LongerFirst, EligibleList(entries, e, text, a))))
    && (forall c :: c in a.chosen ==> Eligible(entries, e, text, a, c))
    && (forall c :: Eligible(entries, e, text, a, c) ==> exists d ::
         d in a.chosen && Overlap(d, c) && Length(d) >= Length(c))
    && text == Weave(Gaps(text, a.chosen), Originals(text, a.chosen)) + RestOf(text, a.chosen)
    && out == Weave(Gaps(text, a.chosen), Translations(a.chosen)) + RestOf(text, a.chosen)
    && EachDecided(EligibleList(entries, e, text, a), a.chosen) && Replaced(text, a.chosen, out)
    && exists ks :: ByEntry(entries, a.spans, EligibleList(entries, e, text, a), ks)
  }

  lemma MatchFits(text: string, entries: seq<Entry>, e: Engine, spans: seq<seq<Range>>, c: Candidate)
    requires AllSpans(text, entries, e, spans) && IsMatch(entries, spans, c)
    ensures Fits(c, |text|)
  {
    hide SpansOf;
    var k, i :| MatchAt(entries, spans, c, k, i);
  }

  /** The test against the merged ranges says whether a match lies in code spans and links. */
  lemma EligibleTest(text: string, entries: seq<Entry>, e: Engine, merged: seq<Range>, a: Account, c: Candidate)
    requires Separated(merged) && AllSpans(text, entries, e, a.spans)
    requires forall x :: Covers(merged, x) <==> Guarded(a.code, e.links(text), x)
    ensures Eligible(entries, e, text, a, c) <==>
              IsMatch(entries, a.spans, c) && !FullyProtected(merged, c.start, c.end)
  {
    hide Covers, Guarded, SpansOf, FullyProtected, Separated;
    if IsMatch(entries, a.spans, c) {
      MatchFits(text, entries, e, a.spans, c);
      FullyProtectedMeaning(merged, c.start, c.end);
    }
  }

  lemma CandidatesFit(text: string, entries: seq<Entry>, e: Engine, spans: seq<seq<Range>>, keep: Candidate -> bool,
                      cands: seq<Candidate>)
    requires |spans| <= |entries| && AllSpans(text, entries, e, spans) && cands == Candidates(entries, spans, keep)
    ensures forall i :: 0 <= i < |cands| ==> Fits(cands[i], |text|)
  {
    hide AllSpans, IsMatch, Candidates;
    forall i | 0 <= i < |cands| ensures Fits(cands[i], |text|) {
      assert cands[i] in cands;
      CandidatesMember(entries, spans, keep, cands[i]);
      MatchFits(text, entries, e, spans, cands[i]);
    }
  }

  /** The candidates found with the merged ranges are the eligible matches. */
  lemma CandidatesEligible(text: string, entries: seq<Entry>, e: Engine, merged: seq<Range>, a: Account)
    requires Separated(merged) && |a.spans| <= |entries| && AllSpans(text, entries, e, a.spans)
    requires forall x :: Covers(merged, x) <==> Guarded(a.code, e.links(text), x)
    ensures Candidates(entries, a.spans, Unprotected(merged)) == EligibleList(entries, e, text, a)
    ensures forall c :: c in EligibleList(entries, e, text, a) <==> Eligible(entries, e, text, a, c)
  {
    hide Separated, AllSpans, Covers, Guarded, Candidates, FullyProtected, IsMatch, InGuarded;
    forall c | IsMatch(entries, a.spans, c) ensures Unprotected(merged)(c) <==> Open(a.code, e.links(text))(c) {
      EligibleTest(text, entries, e, merged, a, c);
    }
    CandidatesAgree(entries, a.spans, Unprotected(merged), Open(a.code, e.links(text)));
    forall c ensures c in EligibleList(entries, e, text, a) <==> Eligible(entries, e, text, a, c) {
      CandidatesMember(entries, a.spans, Open(a.code, e.links(text)), c);
    }
  }

  lemma SegmentDone(text: string, entries: seq<Entry>, e: Engine, merged: seq<Range>, cands: seq<Candidate>,
                    out: string,
                    a: Account)
    requires CodeSpans(text, a.code, |text|) && |a.spans| == |entries| && AllSpans(text, entries, e, a.spans)
    requires Separated(merged) && forall x :: Covers(merged, x) <==> Guarded(a.code, e.links(text), x)
    requires cands == Candidates(entries, a.spans, Unprotected(merged)) && Applied(text, cands, out, a.chosen)
    ensures Translated(text, entries, e, out, a)
  {
    hide CodeSpans, AllSpans, Separated, Covers, Guarded, Laid, Weave, Gaps, Originals, Translations, RestOf, Overlap,
         Length,
         FullyProtected, Greedy, Sort, IsMatch, Eligible, SameElements, Candidates, EligibleList, EachDecided,
         Replaced, ByEntry;
    CandidatesEligible(text, entries, e, merged, a);
    var ks := EligibleByEntry(entries, e, text, a);
  }

  lemma EligibleByEntry(entries: seq<Entry>, e: Engine, text: string, a: Account) returns (ks: seq<int>)
    requires |a.spans| <= |entries|
    ensures ByEntry(entries, a.spans, EligibleList(entries, e, text, a), ks)
  {
    ks := CandidatesByEntry(entries, a.spans, Open(a.code, e.links(text)));
  }

  method ApplySegment(text: string, entries: seq<Entry>, e: Engine) returns (out: string)
    requires Proper(e)
    ensures exists a :: Translated(text, entries, e, out, a)
  {
    hide Proper, CodeSpans, AllSpans, Separated, Covers, Guarded, Candidates, Applied, Translated;
    LinksIn(e, text);
    var protected, code := ProtectedRanges(text, e.links(text));
    var cands := Collect(text, entries, e, protected);
    ghost var spans :| |spans| == |entries| && AllSpans(text, entries, e, spans)
                       && cands == Candidates(entries, spans, Unprotected(protected));
    CandidatesFit(text, entries, e, spans, Unprotected(protected), cands);
    out := ApplyCandidates(text, cands);
    ghost var chosen :| Applied(text, cands, out, chosen);
    SegmentDone(text, entries, e, protected, cands, out, Account(code, spans, chosen));
  }

  lemma LinksIn(e: Engine, text: string)
    requires Proper(e)
    ensures SpansIn(e.links(text), |text|)
  {
  }

  lemma SomeElement(s: seq<Candidate>)
    ensures s == [] || s[0] in s
  {
  }

  /** A text none of whose matches is eligible comes back as it was. */
  lemma NothingEligible(text: string, entries: seq<Entry>, e: Engine, out: string, a: Account)
    requires Translated(text, entries, e, out, a) && forall c :: !Eligible(entries, e, text, a, c)
    ensures out == text
  {
    hide Eligible, CodeSpans, AllSpans;
    SomeElement(a.chosen);
    assert Gaps(text, []) == [] && Translations([]) == [] && Originals(text, []) == [];
  }

  // ----- the document

  function Join(parts: seq<string>): string {
    if parts == [] then "" else Join(parts[..|parts| - 1]) + parts[|parts| - 1]
  }

  predicate LongerMsgid(a: Entry, b: Entry) { |a.msgid| >= |b.msgid| }

  /** sorted lists the entries with the longest msgid first, equally long ones in their old order. */
  ghost predicate LongestFirst(entries: seq<Entry>, sorted: seq<Entry>, perm: seq<int>) {
    && ComesFrom(entries, sorted, perm)
    && forall a, b :: 0 <= a < b < |perm| ==>
         || |sorted[a].msgid| > |sorted[b].msgid|
         || (|sorted[a].msgid| == |sorted[b].msgid| && perm[a] < perm[b])
  }

  lemma SortsLongestFirst(entries: seq<Entry>) returns (perm: seq<int>)
    ensures LongestFirst(entries, Sort(LongerMsgid, entries), perm)
  {
    perm := SortStable(LongerMsgid, entries);
  }

  ghost predicate PartDone(s: Segment, entries: seq<Entry>, e: Engine, out: string, a: Account) {
    if s.isCode then out == s.text else Translated(s.text, entries, e, out, a)
  }

  /** The document is its segments one after the other, code as it is and text translated. */
  ghost predicate DocumentDone(segments: seq<Segment>, entries: seq<Entry>, e: Engine, outs: seq<string>,
                               accounts: seq<Account>) {
    |outs| == |accounts| == |segments| && forall k :: 0 <= k < |segments| ==>
          PartDone(segments[k], entries, e, outs[k], accounts[k])
  }

  method ApplyTranslations(content: string, entries: seq<Entry>, e: Engine)
    returns (out: string, ghost segments: seq<Segment>, ghost cuts: seq<int>, ghost outs: seq<string>,
             ghost accounts: seq<Account>)
    requires Proper(e)
    ensures entries == [] ==> out == content
    ensures entries != [] ==>
              && Concat(segments) == content && out == Join(outs)
              && (exists sorted, perm ::
                   LongestFirst(entries, sorted, perm) && DocumentDone(segments, sorted, e, outs, accounts))
              && (content != "" ==> Parts(content, e.fences(content), segments, cuts) && cuts[|segments|] == |content|)
  {
    hide Parts, Translated, Sort, Concat, Join, LongestFirst;
    outs, accounts, segments, cuts := [], [], [], [];
    if entries == [] {
      return content, segments, cuts, outs, accounts;
    }
    var sorted := Sort(LongerMsgid, entries);
    ghost var perm := SortsLongestFirst(entries);
    var parts;
    parts, cuts := SplitByCodeBlocks(content, e.fences(content));
    segments, out := parts, "";
    JoinNone();
    for k := 0 to |parts|
      invariant |outs| == |accounts| == k && out == Join(outs)
      invariant forall j :: 0 <= j < k ==> PartDone(parts[j], sorted, e, outs[j], accounts[j])
    {
      var part := parts[k].text;
      ghost var a := Account([], [], []);
      if !parts[k].isCode {
        part := ApplySegment(parts[k].text, sorted, e);
        a :| Translated(parts[k].text, sorted, e, part, a);
      }
      JoinMore(outs, part);
      outs, accounts, out := outs + [part], accounts + [a], out + part;
    }
    assert LongestFirst(entries, sorted, perm) && DocumentDone(segments, sorted, e, outs, accounts);
  }

  lemma JoinNone()
    ensures Join([]) == ""
  {
  }

  lemma JoinMore(parts: seq<string>, part: string)
    ensures Join(parts + [part]) == Join(parts) + part
  {
    assert (parts + [part])[..|parts|] == parts;
  }

  /** A document in whose text no match is eligible comes back as it was. */
  lemma {:induction false} UntranslatedUnchanged(segments: seq<Segment>, entries: seq<Entry>, e: Engine,
                                                 outs: seq<string>, accounts: seq<Account>)
    requires DocumentDone(segments, entries, e, outs, accounts)
    requires forall k, c :: 0 <= k < |segments| && !segments[k].isCode ==>
               !Eligible(entries, e, segments[k].text, accounts[k], c)
    ensures Join(outs) == Concat(segments)
  {
    hide Translated, Eligible;
    if segments != [] {
      var n := |segments| - 1;
      UntranslatedUnchanged(segments[..n], entries, e, outs[..n], accounts[..n]);
      assert PartDone(segments[n], entries, e, outs[n], accounts[n]);
      if !segments[n].isCode { NothingEligible(segments[n].text, entries, e, outs[n], accounts[n]); }
    }
  }
}
