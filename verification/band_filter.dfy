/** `filter_band` of lamusica.py: on every tooth a tick is kept when it
    lies at least `filter` after the last kept tick, and the smallest gap
    of the thinned bands is reported. */
module BandFilter {
  import opened Wrappers
  import opened TrackParser
  import opened Deltas
  import opened Sorting

  /** `last_time` before the first tick of a tooth. */
  function Before(filter: int): int {
    -2 * filter
  }

  /** `a` is `b` with some elements left out, order kept. */
  predicate IsSubsequence(a: seq<int>, b: seq<int>)
    decreases |b|
  {
    |a| == 0 || (|b| > 0 && ((a[0] == b[0] && IsSubsequence(a[1..], b[1..])) || IsSubsequence(a, b[1..])))
  }

  /** Every tick lies at least `filter` after the one before it, the first
      at least `filter` after `last`. */
  predicate Spaced(r: seq<int>, filter: int, last: int)
    decreases |r|
  {
    |r| == 0 || (r[0] - last >= filter && Spaced(r[1..], filter, r[0]))
  }

  /** The last kept tick, or `last` when none is kept. */
  function LastKept(r: seq<int>, last: int): int {
    if |r| == 0 then last else r[|r| - 1]
  }

  /** The greedy pass over the ticks of one tooth, `last` being the last
      kept tick so far. */
  function ThinFrom(ticks: seq<int>, filter: int, last: int): (r: seq<int>)
    ensures IsSubsequence(r, ticks)
    ensures Spaced(r, filter, last)
    decreases |ticks|
  {
    if |ticks| == 0 then []
    else if ticks[0] - last >= filter then
      var rest := ThinFrom(ticks[1..], filter, ticks[0]);
      assert ([ticks[0]] + rest)[1..] == rest;
      [ticks[0]] + rest
    else ThinFrom(ticks[1..], filter, last)
  }

  /** The pass over one tooth, from `last_time = -2 * filter`. */
  function ThinOut(ticks: seq<int>, filter: int): (r: seq<int>)
    ensures IsSubsequence(r, ticks) && Spaced(r, filter, Before(filter))
  {
    ThinFrom(ticks, filter, Before(filter))
  }

  /** A spaced list loses nothing: running the pass again changes
      nothing. */
  lemma {:induction false} SpacedKept(ticks: seq<int>, filter: int, last: int)
    requires Spaced(ticks, filter, last)
    ensures ThinFrom(ticks, filter, last) == ticks
    decreases |ticks|
  {
    if |ticks| > 0 {
      SpacedKept(ticks[1..], filter, ticks[0]);
      assert [ticks[0]] + ticks[1..] == ticks;
    }
  }

  lemma {:induction false} ThinOutIdempotent(ticks: seq<int>, filter: int)
    ensures ThinOut(ThinOut(ticks, filter), filter) == ThinOut(ticks, filter)
  {
    SpacedKept(ThinOut(ticks, filter), filter, Before(filter));
  }

  /** Spacing bounds every gap between consecutive kept ticks. */
  lemma {:induction false} SpacedGaps(r: seq<int>, filter: int, last: int)
    requires Spaced(r, filter, last)
    ensures forall j :: 0 <= j < |r| - 1 ==> Gap(r, j) >= filter
    decreases |r|
  {
    if |r| > 1 {
      SpacedGaps(r[1..], filter, r[0]);
      forall j | 0 <= j < |r| - 1
        ensures Gap(r, j) >= filter
      {
        if j > 0 {
          assert Gap(r, j) == Gap(r[1..], j - 1);
        }
      }
    }
  }

  /** The pass read left to right, as the source's loop runs: a tick is
      appended exactly when it lies at least `filter` after the last kept
      tick, and is otherwise dropped. */
  lemma {:induction false} ThinSnoc(ticks: seq<int>, x: int, filter: int, last: int)
    ensures var kept := ThinFrom(ticks, filter, last);
            ThinFrom(ticks + [x], filter, last) == kept + (if x - LastKept(kept, last) >= filter then [x] else [])
    decreases |ticks|
  {
    if |ticks| == 0 {
      assert ticks + [x] == [x];
    } else {
      assert (ticks + [x])[1..] == ticks[1..] + [x];
      if ticks[0] - last >= filter {
        ThinSnoc(ticks[1..], x, filter, ticks[0]);
      } else {
        ThinSnoc(ticks[1..], x, filter, last);
      }
    }
  }

  /** The inner loop of `filter_band` for one tooth, with `last_time` as
      the running state. */
  method ThinTooth(ticks: seq<int>, filter: int) returns (kept: seq<int>)
    ensures kept == ThinOut(ticks, filter)
  {
    var last := Before(filter);
    kept := [];
    for i := 0 to |ticks|
      invariant kept == ThinFrom(ticks[..i], filter, Before(filter))
      invariant last == LastKept(kept, Before(filter))
    {
      ThinSnoc(ticks[..i], ticks[i], filter, Before(filter));
      assert ticks[..i + 1] == ticks[..i] + [ticks[i]];
      if ticks[i] - last >= filter {
        kept := kept + [ticks[i]];
        last := ticks[i];
      }
    }
    assert ticks[..|ticks|] == ticks;
  }

  /** Every tooth thinned. */
  function ThinBands(notelist: seq<seq<int>>, filter: int): (r: seq<seq<int>>)
    ensures |r| == |notelist|
    ensures forall i :: 0 <= i < |r| ==> r[i] == ThinOut(notelist[i], filter)
  {
    seq(|notelist|, i requires 0 <= i < |notelist| => ThinOut(notelist[i], filter))
  }

  /** The number of gaps `filter_band` prints. */
  const FilterShownGaps := 10

  /** `filter_band`: the thinned bands and their smallest gap; fewer than
      ten distinct gaps raise an IndexError. */
  function FilterBand(notelist: seq<seq<int>>, filter: int): (r: Result<(seq<seq<int>>, int), MidiError>)
    ensures r.Ok? <==> |SortedSet(Gaps(ThinBands(notelist, filter)))| >= FilterShownGaps
    ensures r.Err? ==> r.error == IndexOutOfRange
    ensures r.Ok? ==>
              && |r.value.0| == |notelist|
              && forall i :: 0 <= i < |notelist| ==>
                   IsSubsequence(r.value.0[i], notelist[i]) && Spaced(r.value.0[i], filter, Before(filter))
    ensures r.Ok? ==> r.value.0 == ThinBands(notelist, filter) && SmallestGap(r.value.0, FilterShownGaps) == Ok(r.value.1)
  {
    var thinned := ThinBands(notelist, filter);
    var mindelta :- SmallestGap(thinned, FilterShownGaps);
    Ok((thinned, mindelta))
  }

  /** The reported delta is a gap of some thinned tooth, no gap is
      smaller, and it is at least `filter`. */
  lemma {:induction false} FilterBandDelta(notelist: seq<seq<int>>, filter: int)
    requires FilterBand(notelist, filter).Ok?
    ensures var (thinned, mindelta) := FilterBand(notelist, filter).value;
            && mindelta >= filter
            && IsGap(thinned, mindelta)
            && forall i, j :: 0 <= i < |thinned| && 0 <= j < |thinned[i]| - 1 ==> mindelta <= Gap(thinned[i], j)
  {
    var thinned := ThinBands(notelist, filter);
    SmallestGapIsLeast(thinned, FilterShownGaps);
    var mindelta := FilterBand(notelist, filter).value.1;
    var i, j :| 0 <= i < |thinned| && 0 <= j < |thinned[i]| - 1 && mindelta == Gap(thinned[i], j);
    SpacedGaps(thinned[i], filter, Before(filter));
  }
}
