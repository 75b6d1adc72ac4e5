/** `filter_coarse_memory_by_time_periods` (utils.py): narrow the coarse
    memory to the periods an oracle named as relevant, each widened by one
    coarse window of context on either side. */
module PeriodFilter {
  import opened Timeline

  function Min(a: int, b: int): (m: int)
    ensures m <= a && m <= b && (m == a || m == b)
  {
    if a <= b then a else b
  }

  /** The window of one coarse duration `d` that ends `overlap` after `p`
      starts: the coarse segment just before `p`. */
  function PreWindow(p: Period, d: int, overlap: int): Period {
    Period(p.start + overlap - d, p.start + overlap)
  }

  /** The window that starts `overlap` before `p` ends and runs for `d`, cut
      short at the end of the video: the coarse segment just after `p`. */
  function PostWindow(p: Period, d: int, overlap: int, lastTime: int): Period {
    Period(p.end - overlap, Min(p.end + d - overlap, lastTime))
  }

  /** The windows drawn for one related period `p`. The first coarse period
      has no window before it and the last none after it; `d` is the span of
      the first coarse entry and `lastTime` the end of the last one. */
  function Windows(coarse: seq<Entry>, p: Period, overlap: int): seq<Period>
    requires |coarse| > 0
  {
    var first := coarse[0].period;
    var last := coarse[|coarse| - 1].period;
    var d := first.Span();
    if p != first && p != last then
      [PreWindow(p, d, overlap), p, PostWindow(p, d, overlap, last.end)]
    else if p == first then
      [p, PostWindow(p, d, overlap, last.end)]
    else
      [PreWindow(p, d, overlap), p]
  }

  /** The windows of every related period, in the order they are drawn. */
  function AllWindows(coarse: seq<Entry>, related: seq<Period>, overlap: int): seq<Period>
    requires |coarse| > 0
  {
    if related == [] then []
    else AllWindows(coarse, related[..|related| - 1], overlap)
         + Windows(coarse, related[|related| - 1], overlap)
  }

  /** The windows around `p` hold `p` itself; a window before it spans one
      coarse duration and overlaps `p` by `overlap`; a window after it starts
      `overlap` before `p` ends, spans at most one coarse duration and never
      runs past the end of the video. The window before is drawn unless `p`
      is the first coarse period, the window after unless `p` is the last
      one and not also the first, and no other window is drawn. */
  lemma WindowsAround(coarse: seq<Entry>, p: Period, overlap: int)
    requires |coarse| > 0
    ensures var first := coarse[0].period;
      var last := coarse[|coarse| - 1].period;
      var ws := Windows(coarse, p, overlap);
      && p in ws
      && (forall w :: w in ws ==>
            || w == p
            || (w.end == p.start + overlap && w.Span() == first.Span())
            || (w.start == p.end - overlap && w.end <= last.end && w.Span() <= first.Span()))
      && (p != first ==> PreWindow(p, first.Span(), overlap) in ws)
      && (p != last || p == first ==> PostWindow(p, first.Span(), overlap, last.end) in ws)
      && |ws| == 1 + (if p != first then 1 else 0) + (if p != last || p == first then 1 else 0)
  {
  }

  /** A window of the `k`-th related period is among all the windows. */
  lemma {:induction false} WindowInAll(coarse: seq<Entry>, related: seq<Period>, overlap: int, k: nat, w: Period)
    requires |coarse| > 0 && k < |related| && w in Windows(coarse, related[k], overlap)
    ensures w in AllWindows(coarse, related, overlap)
    decreases |related|
  {
    var n := |related| - 1;
    var init := related[..n];
    assert AllWindows(coarse, related, overlap) == AllWindows(coarse, init, overlap) + Windows(coarse, related[n], overlap);
    if k < n {
      assert init[k] == related[k];
      WindowInAll(coarse, init, overlap, k, w);
    }
  }

  /** Each of all the windows is a window of some related period. */
  lemma {:induction false} AllFromWindow(coarse: seq<Entry>, related: seq<Period>, overlap: int, w: Period)
    requires |coarse| > 0 && w in AllWindows(coarse, related, overlap)
    ensures exists k :: 0 <= k < |related| && w in Windows(coarse, related[k], overlap)
    decreases |related|
  {
    var n := |related| - 1;
    var init := related[..n];
    var prev := AllWindows(coarse, init, overlap);
    assert AllWindows(coarse, related, overlap) == prev + Windows(coarse, related[n], overlap);
    if w in prev {
      AllFromWindow(coarse, init, overlap, w);
      var k :| 0 <= k < |init| && w in Windows(coarse, init[k], overlap);
      assert related[k] == init[k];
    } else {
      assert w in Windows(coarse, related[n], overlap);
    }
  }

  /** A period is among all the windows exactly when it is among the windows
      of some related period. */
  lemma AllWindowsMembers(coarse: seq<Entry>, related: seq<Period>, overlap: int)
    requires |coarse| > 0
    ensures forall w :: w in AllWindows(coarse, related, overlap) <==>
      exists k :: 0 <= k < |related| && w in Windows(coarse, related[k], overlap)
  {
    forall w ensures w in AllWindows(coarse, related, overlap) <==>
      exists k :: 0 <= k < |related| && w in Windows(coarse, related[k], overlap)
    {
      if w in AllWindows(coarse, related, overlap) {
        AllFromWindow(coarse, related, overlap, w);
      }
      if exists k :: 0 <= k < |related| && w in Windows(coarse, related[k], overlap) {
        var k :| 0 <= k < |related| && w in Windows(coarse, related[k], overlap);
        WindowInAll(coarse, related, overlap, k, w);
      }
    }
  }

  /** Every related period is one of the windows. */
  lemma RelatedAreWindows(coarse: seq<Entry>, related: seq<Period>, overlap: int)
    requires |coarse| > 0
    ensures forall p :: p in related ==> p in AllWindows(coarse, related, overlap)
  {
    AllWindowsMembers(coarse, related, overlap);
    forall p | p in related ensures p in AllWindows(coarse, related, overlap) {
      var k :| 0 <= k < |related| && related[k] == p;
      WindowsAround(coarse, p, overlap);
    }
  }

  /** The windows are drawn one related period at a time, as the source's
      loop extends its list. */
  method DrawWindows(coarse: seq<Entry>, related: seq<Period>, overlap: int) returns (processed: seq<Period>)
    requires |coarse| > 0
    ensures processed == AllWindows(coarse, related, overlap)
  {
    var first := coarse[0].period;
    var last := coarse[|coarse| - 1].period;
    var d := first.end - first.start;
    processed := [];
    for i := 0 to |related|
      invariant processed == AllWindows(coarse, related[..i], overlap)
    {
      var p := related[i];
      if p != first && p != last {
        processed := processed + [Period(p.start + overlap - d, p.start + overlap), p,
                                  Period(p.end - overlap, Min(p.end + d - overlap, last.end))];
      } else if p == first {
        processed := processed + [p, Period(p.end - overlap, Min(p.end + d - overlap, last.end))];
      } else if p == last {
        processed := processed + [Period(p.start + overlap - d, p.start + overlap), p];
      }
      assert related[..i + 1][..i] == related[..i];
    }
    assert related[..|related|] == related;
  }

  /** Ascending by start time. */
  predicate SortedByStart(ps: seq<Period>) {
    forall i, j :: 0 <= i < j < |ps| ==> ps[i].start <= ps[j].start
  }

  /** A non-empty set of periods has one that starts no later than any other. */
  lemma {:induction false} EarliestExists(s: set<Period>)
    requires s != {}
    ensures exists p :: p in s && forall q :: q in s ==> p.start <= q.start
    decreases |s|
  {
    var x :| x in s;
    if s != {x} {
      EarliestExists(s - {x});
      var m :| m in s - {x} && forall q :: q in s - {x} ==> m.start <= q.start;
      if x.start < m.start {
        assert forall q :: q in s ==> x.start <= q.start;
      } else {
        assert forall q :: q in s ==> m.start <= q.start;
      }
    }
  }

  /** `sorted(set(...), key=start)`: every drawn window once, ascending by
      start (the order of windows with equal starts is not fixed). */
  method SortedUnique(processed: seq<Period>) returns (sorted: seq<Period>)
    ensures forall w :: w in sorted <==> w in processed
    ensures Distinct(sorted)
    ensures SortedByStart(sorted)
  {
    var pending := set w | w in processed;
    sorted := [];
    while pending != {}
      invariant forall w :: w in processed <==> w in sorted || w in pending
      invariant forall w :: w in sorted ==> w !in pending
      invariant Distinct(sorted)
      invariant SortedByStart(sorted)
      invariant forall i, q :: 0 <= i < |sorted| && q in pending ==> sorted[i].start <= q.start
      decreases |pending|
    {
      EarliestExists(pending);
      var p :| p in pending && forall q :: q in pending ==> p.start <= q.start;
      sorted := sorted + [p];
      pending := pending - {p};
    }
  }

  /** The entries whose period is one of `windows`, in their original order. */
  function Keep(es: seq<Entry>, windows: seq<Period>): seq<Entry> {
    if es == [] then []
    else Keep(es[..|es| - 1], windows)
         + (if es[|es| - 1].period in windows then [es[|es| - 1]] else [])
  }

  /** `xs` is `ys` with some elements left out, the rest in order. */
  predicate IsSubsequence<T(==)>(xs: seq<T>, ys: seq<T>)
    decreases |ys|
  {
    || xs == []
    || (&& ys != []
        && (|| (xs[|xs| - 1] == ys[|ys| - 1] && IsSubsequence(xs[..|xs| - 1], ys[..|ys| - 1]))
            || IsSubsequence(xs, ys[..|ys| - 1])))
  }

  /** Filtering keeps the order of the coarse memory. */
  lemma {:induction false} KeepIsSubsequence(es: seq<Entry>, windows: seq<Period>)
    ensures IsSubsequence(Keep(es, windows), es)
    decreases |es|
  {
    if es != [] {
      var init := es[..|es| - 1];
      KeepIsSubsequence(init, windows);
      var k := Keep(es, windows);
      if es[|es| - 1].period in windows {
        assert k[..|k| - 1] == Keep(init, windows);
      } else {
        assert k == Keep(init, windows);
      }
    }
  }

  /** Each entry is kept as often as it occurs when its period is a window,
      and never otherwise. */
  lemma {:induction false} KeepCounts(es: seq<Entry>, windows: seq<Period>)
    ensures forall e ::
      multiset(Keep(es, windows))[e] == (if e.period in windows then multiset(es)[e] else 0)
    decreases |es|
  {
    if es != [] {
      var init := es[..|es| - 1];
      KeepCounts(init, windows);
      assert es == init + [es[|es| - 1]];
    }
  }

  /** Filtering reads the windows only as a set. */
  lemma {:induction false} KeepSameMembers(es: seq<Entry>, ws: seq<Period>, vs: seq<Period>)
    requires forall w :: w in ws <==> w in vs
    ensures Keep(es, ws) == Keep(es, vs)
    decreases |es|
  {
    if es != [] {
      KeepSameMembers(es[..|es| - 1], ws, vs);
    }
  }

  /** The coarse entries whose period is among the windows, in order. */
  method KeepEntries(coarse: seq<Entry>, windows: seq<Period>) returns (kept: seq<Entry>)
    ensures kept == Keep(coarse, windows)
  {
    kept := [];
    for i := 0 to |coarse|
      invariant kept == Keep(coarse[..i], windows)
    {
      if coarse[i].period in windows {
        kept := kept + [coarse[i]];
      }
      assert coarse[..i + 1][..i] == coarse[..i];
    }
    assert coarse[..|coarse|] == coarse;
  }

  /** The windows that match no coarse period, in their order. */
  function Unmatched(windows: seq<Period>, periods: seq<Period>): seq<Period> {
    if windows == [] then []
    else Unmatched(windows[..|windows| - 1], periods)
         + (if windows[|windows| - 1] !in periods then [windows[|windows| - 1]] else [])
  }

  /** A window is reported exactly when no coarse entry has its period, and so
      exactly when it contributes nothing to the filtered memory. */
  lemma {:induction false} UnmatchedMembers(windows: seq<Period>, coarse: seq<Entry>)
    ensures forall w :: w in Unmatched(windows, PeriodsOf(coarse)) <==>
      w in windows && forall e :: e in coarse ==> e.period != w
    decreases |windows|
  {
    if windows != [] {
      UnmatchedMembers(windows[..|windows| - 1], coarse);
      forall w | w in windows && w !in PeriodsOf(coarse) ensures forall e :: e in coarse ==> e.period != w {
        forall e | e in coarse ensures e.period != w {
          var k :| 0 <= k < |coarse| && coarse[k] == e;
          assert PeriodsOf(coarse)[k] == e.period;
        }
      }
      forall w | w in windows && w in PeriodsOf(coarse) ensures exists e :: e in coarse && e.period == w {
        var k :| 0 <= k < |coarse| && PeriodsOf(coarse)[k] == w;
        assert coarse[k] in coarse;
      }
    }
  }

  /** The warnings for windows that match no coarse period. */
  method ReportUnmatched(windows: seq<Period>, coarse: seq<Entry>) returns (missing: seq<Period>)
    ensures missing == Unmatched(windows, PeriodsOf(coarse))
  {
    var original := PeriodsOf(coarse);
    missing := [];
    for i := 0 to |windows|
      invariant missing == Unmatched(windows[..i], original)
    {
      if windows[i] !in original {
        missing := missing + [windows[i]];
      }
      assert windows[..i + 1][..i] == windows[..i];
    }
    assert windows[..|windows|] == windows;
  }

  /** Python's `filter_coarse_memory_by_time_periods`. The coarse memory must
      be non-empty (the source indexes its first and last entries). Besides
      the filtered memory it returns the sorted windows and the windows that
      draw a warning, which the source prints. */
  method FilterCoarseMemory(coarse: seq<Entry>, related: seq<Period>, overlap: int)
    returns (filtered: seq<Entry>, sorted: seq<Period>, missing: seq<Period>)
    requires |coarse| > 0
    ensures filtered == Keep(coarse, AllWindows(coarse, related, overlap))
    ensures forall w :: w in sorted <==> w in AllWindows(coarse, related, overlap)
    ensures Distinct(sorted) && SortedByStart(sorted)
    ensures missing == Unmatched(sorted, PeriodsOf(coarse))
  {
    var processed := DrawWindows(coarse, related, overlap);
    sorted := SortedUnique(processed);
    filtered := KeepEntries(coarse, sorted);
    KeepSameMembers(coarse, sorted, processed);
    missing := ReportUnmatched(sorted, coarse);
  }

  /** What the filter promises its caller: an order-preserving selection of
      the coarse memory holding every entry whose period is a window (in
      particular every entry whose period was named as related) and nothing
      else. */
  lemma FilterMeaning(coarse: seq<Entry>, related: seq<Period>, overlap: int)
    requires |coarse| > 0
    ensures var kept := Keep(coarse, AllWindows(coarse, related, overlap));
      && IsSubsequence(kept, coarse)
      && (forall e :: e in kept <==> e in coarse && e.period in AllWindows(coarse, related, overlap))
      && (forall e :: e in coarse && e.period in related ==> e in kept)
  {
    var ws := AllWindows(coarse, related, overlap);
    KeepIsSubsequence(coarse, ws);
    KeepCounts(coarse, ws);
    RelatedAreWindows(coarse, related, overlap);
  }
}
