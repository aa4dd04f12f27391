/** The `deltas` table of `prepare_band` (midi.py and lamusica.py) and
    `filter_band` (lamusica.py): every gap between consecutive ticks of a
    band, and the smallest one. */
module Deltas {
  import opened Wrappers
  import opened Sorting
  import opened TrackParser

  /** The gap after the `j`-th tick of a band. */
  function Gap(ticks: seq<int>, j: nat): int
    requires j + 1 < |ticks|
  {
    ticks[j + 1] - ticks[j]
  }

  /** The gaps between consecutive ticks of one band. */
  function BandGaps(ticks: seq<int>): (r: seq<int>)
    ensures |r| == if |ticks| == 0 then 0 else |ticks| - 1
    ensures forall j :: 0 <= j < |r| ==> r[j] == Gap(ticks, j)
  {
    if |ticks| == 0 then [] else seq(|ticks| - 1, j requires 0 <= j < |ticks| - 1 => Gap(ticks, j))
  }

  /** A gap between consecutive ticks of some band. */
  ghost predicate IsGap(bands: seq<seq<int>>, d: int) {
    exists i, j :: 0 <= i < |bands| && 0 <= j < |bands[i]| - 1 && d == Gap(bands[i], j)
  }

  /** The keys of `deltas`: the gaps of every band, one band after another. */
  function Gaps(bands: seq<seq<int>>): (r: seq<int>)
    decreases |bands|
  {
    if |bands| == 0 then [] else BandGaps(bands[0]) + Gaps(bands[1..])
  }

  /** Every gap between consecutive ticks is a key. */
  lemma {:induction false} GapListed(bands: seq<seq<int>>, i: nat, j: nat)
    requires i < |bands| && j + 1 < |bands[i]|
    ensures Gap(bands[i], j) in Gaps(bands)
    decreases i
  {
    if i == 0 {
      assert BandGaps(bands[0])[j] == Gap(bands[0], j);
    } else {
      assert bands[1..][i - 1] == bands[i];
      GapListed(bands[1..], i - 1, j);
    }
  }

  /** Every key is a gap between consecutive ticks. */
  lemma {:induction false} ListedGap(bands: seq<seq<int>>, d: int)
    requires d in Gaps(bands)
    ensures IsGap(bands, d)
    decreases |bands|
  {
    var own := BandGaps(bands[0]);
    if d in own {
      var j :| 0 <= j < |own| && own[j] == d;
      assert 0 <= j < |bands[0]| - 1 && d == Gap(bands[0], j);
    } else {
      ListedGap(bands[1..], d);
      var i, j :| 0 <= i < |bands[1..]| && 0 <= j < |bands[1..][i]| - 1 && d == Gap(bands[1..][i], j);
      assert bands[1..][i] == bands[i + 1];
    }
  }

  lemma {:induction false} GapsExact(bands: seq<seq<int>>)
    ensures forall d :: d in Gaps(bands) <==> IsGap(bands, d)
  {
    forall d
      ensures d in Gaps(bands) <==> IsGap(bands, d)
    {
      if d in Gaps(bands) {
        ListedGap(bands, d);
      }
      if IsGap(bands, d) {
        var i, j :| 0 <= i < |bands| && 0 <= j < |bands[i]| - 1 && d == Gap(bands[i], j);
        GapListed(bands, i, j);
      }
    }
  }

  /** `ks = deltas.keys(); ks.sort()`, then the first `shown` keys are
      printed and `ks[0]` returned: fewer than `shown` distinct gaps raise
      an IndexError. */
  function SmallestGap(bands: seq<seq<int>>, shown: nat): (r: Result<int, MidiError>)
    requires shown >= 1
    ensures r.Ok? <==> |SortedSet(Gaps(bands))| >= shown
    ensures r.Err? ==> r.error == IndexOutOfRange
  {
    var ks := SortedSet(Gaps(bands));
    if |ks| < shown then Err(IndexOutOfRange) else Ok(ks[0])
  }

  /** The returned delta is a gap of some band, and no gap is smaller. */
  lemma {:induction false} SmallestGapIsLeast(bands: seq<seq<int>>, shown: nat)
    requires shown >= 1 && SmallestGap(bands, shown).Ok?
    ensures var d := SmallestGap(bands, shown).value;
            && IsGap(bands, d)
            && forall i, j :: 0 <= i < |bands| && 0 <= j < |bands[i]| - 1 ==> d <= Gap(bands[i], j)
  {
    var ks := SortedSet(Gaps(bands));
    var d := ks[0];
    GapsExact(bands);
    assert d in ks;
    forall i, j | 0 <= i < |bands| && 0 <= j < |bands[i]| - 1
      ensures d <= Gap(bands[i], j)
    {
      var g := Gap(bands[i], j);
      assert IsGap(bands, g);
      assert g in ks;
      var k :| 0 <= k < |ks| && ks[k] == g;
      if k > 0 {
        assert ks[0] < ks[k];
      }
    }
  }
}
