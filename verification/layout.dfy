/** The strip layout at the top of `output_file` (lamusica.py): where the
    strip is cut into pages and where the holes go. Positions are exact
    reals, an idealisation of the source's doubles. */
module Layout {
  import opened Sorting
  import opened BoxModels
  import Encoder

  /** Page size and margins of the output, in millimetres. */
  const PageWidth: real := 420.0
  const PageBorder: real := 10.0
  const LeadIn: real := 20.0
  const LeadOut: real := 20.0

  /** Strip length a page holds between its margins. */
  const Printable: real := PageWidth - 2.0 * PageBorder

  /** `sum(notelist, [])`: the bands one after the other. */
  function Flatten(bands: seq<seq<int>>): (r: seq<int>)
    ensures forall i, x :: 0 <= i < |bands| && x in bands[i] ==> x in r
    ensures forall x :: x in r ==> exists i :: 0 <= i < |bands| && x in bands[i]
    decreases |bands|
  {
    if |bands| == 0 then []
    else
      var rest := Flatten(bands[1..]);
      assert forall i :: 1 <= i < |bands| ==> bands[i] == bands[1..][i - 1];
      bands[0] + rest
  }

  /** `alltimes`: the distinct ticks of all bands, ascending. */
  function AllTimes(bands: seq<seq<int>>): (r: seq<int>)
    ensures StrictlyAscending(r)
    ensures forall i, x :: 0 <= i < |bands| && x in bands[i] ==> x in r
    ensures forall x :: x in r ==> exists i :: 0 <= i < |bands| && x in bands[i]
  {
    SortedSet(Flatten(bands))
  }

  /** Some band holds a tick (`alltimes[0]` is taken unguarded). */
  predicate HasTicks(bands: seq<seq<int>>) {
    |Flatten(bands)| > 0
  }

  lemma {:induction false} SomeTime(bands: seq<seq<int>>)
    requires HasTicks(bands)
    ensures |AllTimes(bands)| > 0
  {
    var x := Flatten(bands)[0];
    assert x in Flatten(bands);
    var i :| 0 <= i < |bands| && x in bands[i];
    assert x in AllTimes(bands);
  }

  /** `start`: the first tick of the strip. */
  function Start(bands: seq<seq<int>>): int
    requires HasTicks(bands)
  {
    SomeTime(bands);
    AllTimes(bands)[0]
  }

  /** Millimetres per tick: the model's step per `mindelta` ticks. */
  function Step(m: BoxModel, mindelta: int): real
    requires mindelta != 0
  {
    m.step / mindelta as real
  }

  /** `length`: the strip from the lead-in to the lead-out, with room for
      the last hole. */
  function Length(times: seq<int>, step: real, radius: real): real
    requires |times| > 0
  {
    (times[|times| - 1] - times[0]) as real * step + radius * 2.0 + LeadIn + LeadOut
  }

  /** `middlepos`: the strip position halfway between ticks `i - 1` and
      `i`, with ticks counted from `origin`. */
  function Middle(times: seq<int>, i: nat, step: real, origin: int): real
    requires 1 <= i < |times|
  {
    LeadIn + ((times[i] - origin) + (times[i - 1] - origin)) as real * step / 2.0
  }

  /** A gap wide enough to cut in: more than four hole radii. */
  predicate WideGap(times: seq<int>, i: nat, step: real, radius: real)
    requires 1 <= i < |times|
  {
    (times[i] - times[i - 1]) as real * step > radius * 4.0
  }

  /** The walk over `alltimes` from index `i` on, with the current page's
      start and the last safe cut: a page is closed at the safe cut when
      the next midpoint would not fit on it. */
  function Breaks(times: seq<int>, step: real, radius: real, origin: int, i: nat, startpos: real, breakpos: real): (r: seq<real>)
    requires 1 <= i <= |times|
    decreases |times| - i
  {
    if i == |times| then []
    else
      var middle := Middle(times, i, step, origin);
      var close := middle - startpos > Printable;
      var startpos' := if close then breakpos else startpos;
      var breakpos' := if WideGap(times, i, step, radius) then middle else breakpos;
      (if close then [breakpos] else []) + Breaks(times, step, radius, origin, i + 1, startpos', breakpos')
  }

  /** `splits`: 0, the cuts of the walk, the strip length. */
  function Splits(times: seq<int>, step: real, radius: real, origin: int): (r: seq<real>)
    requires |times| > 0
    ensures |r| >= 2 && r[0] == 0.0 && r[|r| - 1] == Length(times, step, radius)
  {
    [0.0] + Breaks(times, step, radius, origin, 1, 0.0, 0.0) + [Length(times, step, radius)]
  }

  /** The splits as lamusica.py computes them: the midpoints are taken
      from tick 0 rather than from the first tick. */
  function WrittenPageSplits(m: BoxModel, bands: seq<seq<int>>, mindelta: int): (r: seq<real>)
    requires mindelta != 0 && HasTicks(bands)
    ensures var times, step, radius := AllTimes(bands), Step(m, mindelta), m.diameter / 2.0;
            && |times| > 0 && |r| >= 2 && r[0] == 0.0 && r[|r| - 1] == Length(times, step, radius)
            && (forall p :: 0 < p < |r| - 1 ==> r[p] == 0.0 || SafeCut(times, step, radius, 0, 1, r[p]))
            && (mindelta > 0 && m.step >= 0.0 && Start(bands) >= 0 ==> NonDecreasing(r[..|r| - 1]))
  {
    SomeTime(bands);
    var times, step, radius := AllTimes(bands), Step(m, mindelta), m.diameter / 2.0;
    SplitsAtSafeCuts(times, step, radius, 0);
    if mindelta > 0 && m.step >= 0.0 && Start(bands) >= 0 then
      WrittenCutsAscend(times, step, radius);
      Splits(times, step, radius, 0)
    else Splits(times, step, radius, 0)
  }

  /** The splits with midpoints measured from the first tick, as the hole
      positions are. */
  function PageSplits(m: BoxModel, bands: seq<seq<int>>, mindelta: int): (r: seq<real>)
    requires mindelta != 0 && HasTicks(bands)
    ensures var times, step, radius := AllTimes(bands), Step(m, mindelta), m.diameter / 2.0;
            && |times| > 0 && |r| >= 2 && r[0] == 0.0 && r[|r| - 1] == Length(times, step, radius)
            && forall p :: 0 < p < |r| - 1 ==> r[p] == 0.0 || SafeCut(times, step, radius, Start(bands), 1, r[p])
  {
    SomeTime(bands);
    var times, step, radius := AllTimes(bands), Step(m, mindelta), m.diameter / 2.0;
    SplitsAtSafeCuts(times, step, radius, Start(bands));
    Splits(times, step, radius, Start(bands))
  }

  /** A cut of the walk is a safe cut it saw: its starting one, or the
      midpoint of an earlier wide gap. */
  predicate SafeCut(times: seq<int>, step: real, radius: real, origin: int, from: nat, x: real)
    requires 1 <= from
  {
    exists j :: from <= j < |times| - 1 && WideGap(times, j, step, radius) && x == Middle(times, j, step, origin)
  }

  lemma {:induction false} BreaksAreSafeCuts(times: seq<int>, step: real, radius: real, origin: int, i: nat, startpos: real, breakpos: real)
    requires 1 <= i <= |times|
    ensures forall x :: x in Breaks(times, step, radius, origin, i, startpos, breakpos) ==>
              x == breakpos || SafeCut(times, step, radius, origin, i, x)
    decreases |times| - i
  {
    if i < |times| {
      var middle := Middle(times, i, step, origin);
      var close := middle - startpos > Printable;
      var startpos' := if close then breakpos else startpos;
      var wide := WideGap(times, i, step, radius);
      var breakpos' := if wide then middle else breakpos;
      BreaksAreSafeCuts(times, step, radius, origin, i + 1, startpos', breakpos');
      forall x | x in Breaks(times, step, radius, origin, i + 1, startpos', breakpos')
        ensures x == breakpos || SafeCut(times, step, radius, origin, i, x)
      {
        if x != breakpos' {
          var j :| i + 1 <= j < |times| - 1 && WideGap(times, j, step, radius) && x == Middle(times, j, step, origin);
        } else if wide && x != breakpos {
          assert i < |times| - 1 by {
            assert x in Breaks(times, step, radius, origin, i + 1, startpos', breakpos');
          }
        }
      }
    }
  }

  /** Every interior split is 0 or the midpoint of a gap wider than four
      hole radii. */
  lemma {:induction false} SplitsAtSafeCuts(times: seq<int>, step: real, radius: real, origin: int)
    requires |times| > 0
    ensures var r := Splits(times, step, radius, origin);
            forall p :: 0 < p < |r| - 1 ==> r[p] == 0.0 || SafeCut(times, step, radius, origin, 1, r[p])
  {
    var b := Breaks(times, step, radius, origin, 1, 0.0, 0.0);
    var r := Splits(times, step, radius, origin);
    BreaksAreSafeCuts(times, step, radius, origin, 1, 0.0, 0.0);
    forall p | 0 < p < |r| - 1
      ensures r[p] == 0.0 || SafeCut(times, step, radius, origin, 1, r[p])
    {
      assert r[p] == b[p - 1] && b[p - 1] in b;
    }
  }

  /** `x * step` grows with `x` for a non-negative step. */
  lemma {:induction false} ScaleMono(x: int, y: int, step: real)
    requires x <= y && step >= 0.0
    ensures x as real * step <= y as real * step
  {
    assert y as real * step - x as real * step == (y - x) as real * step;
  }

  /** Midpoints move forward with the ticks. */
  lemma {:induction false} MiddleMono(times: seq<int>, step: real, origin: int, j: nat, j': nat)
    requires StrictlyAscending(times) && step >= 0.0
    requires 1 <= j <= j' < |times|
    ensures Middle(times, j, step, origin) <= Middle(times, j', step, origin)
  {
    assert times[j - 1] <= times[j' - 1] && times[j] <= times[j'];
    ScaleMono((times[j] - origin) + (times[j - 1] - origin), (times[j'] - origin) + (times[j' - 1] - origin), step);
  }

  predicate NonDecreasing(r: seq<real>) {
    forall p, q :: 0 <= p < q < |r| ==> r[p] <= r[q]
  }

  lemma {:induction false} NonDecreasingCons(x: real, r: seq<real>)
    requires NonDecreasing(r) && forall p :: 0 <= p < |r| ==> x <= r[p]
    ensures NonDecreasing([x] + r)
  {
    forall p, q | 0 <= p < q < |r| + 1
      ensures ([x] + r)[p] <= ([x] + r)[q]
    {
      if p > 0 {
        assert ([x] + r)[p] == r[p - 1];
      }
      assert ([x] + r)[q] == r[q - 1];
    }
  }

  /** With the safe cut behind every midpoint still to come, the cuts come
      out in order, none before that safe cut. */
  lemma {:induction false} BreaksAscend(times: seq<int>, step: real, radius: real, origin: int, i: nat, startpos: real, breakpos: real)
    requires StrictlyAscending(times) && step >= 0.0
    requires 1 <= i <= |times|
    requires i < |times| ==> breakpos <= Middle(times, i, step, origin)
    ensures var r := Breaks(times, step, radius, origin, i, startpos, breakpos);
            NonDecreasing(r) && forall p :: 0 <= p < |r| ==> breakpos <= r[p]
    decreases |times| - i
  {
    if i < |times| {
      var middle := Middle(times, i, step, origin);
      var close := middle - startpos > Printable;
      var startpos' := if close then breakpos else startpos;
      var breakpos' := if WideGap(times, i, step, radius) then middle else breakpos;
      if i + 1 < |times| {
        MiddleMono(times, step, origin, i, i + 1);
      }
      BreaksAscend(times, step, radius, origin, i + 1, startpos', breakpos');
      var rest := Breaks(times, step, radius, origin, i + 1, startpos', breakpos');
      if close {
        NonDecreasingCons(breakpos, rest);
      }
    }
  }

  /** As written, the cuts between the first and the last split are in
      order: the midpoints of non-negative ticks lie past 0. */
  lemma {:induction false} WrittenCutsAscend(times: seq<int>, step: real, radius: real)
    requires StrictlyAscending(times) && |times| > 0 && times[0] >= 0 && step >= 0.0
    ensures var r := Splits(times, step, radius, 0);
            NonDecreasing(r[..|r| - 1])
  {
    if 1 < |times| {
      ScaleMono(0, times[1] + times[0], step);
    }
    BreaksAscend(times, step, radius, 0, 1, 0.0, 0.0);
    var b := Breaks(times, step, radius, 0, 1, 0.0, 0.0);
    NonDecreasingCons(0.0, b);
    var r := Splits(times, step, radius, 0);
    assert r[..|r| - 1] == [0.0] + b;
  }

  /** Measured from the first tick, every midpoint lies within the strip. */
  lemma {:induction false} MiddleWithinStrip(times: seq<int>, step: real, radius: real, j: nat)
    requires StrictlyAscending(times) && step >= 0.0 && radius >= 0.0
    requires 1 <= j < |times|
    ensures LeadIn <= Middle(times, j, step, times[0]) <= Length(times, step, radius)
  {
    var last := |times| - 1;
    assert times[0] <= times[j - 1] <= times[j] <= times[last];
    ScaleMono(0, (times[j] - times[0]) + (times[j - 1] - times[0]), step);
    ScaleMono((times[j] - times[0]) + (times[j - 1] - times[0]), 2 * (times[last] - times[0]), step);
    assert (2 * (times[last] - times[0])) as real * step / 2.0 == (times[last] - times[0]) as real * step;
  }

  /** With the midpoints measured from the first tick the splits run from
      0 to the strip length in order, so consecutive splits bound the pages
      and the pages cover the strip without overlapping. */
  lemma {:induction false} SplitsAscend(times: seq<int>, step: real, radius: real)
    requires StrictlyAscending(times) && |times| > 0 && step >= 0.0 && radius >= 0.0
    ensures NonDecreasing(Splits(times, step, radius, times[0]))
  {
    var origin := times[0];
    if 1 < |times| {
      MiddleWithinStrip(times, step, radius, 1);
    }
    BreaksAscend(times, step, radius, origin, 1, 0.0, 0.0);
    BreaksAreSafeCuts(times, step, radius, origin, 1, 0.0, 0.0);
    var b := Breaks(times, step, radius, origin, 1, 0.0, 0.0);
    var len := Length(times, step, radius);
    assert len >= LeadIn;
    forall p | 0 <= p < |b|
      ensures b[p] <= len
    {
      assert b[p] in b;
      if b[p] != 0.0 {
        var j :| 1 <= j < |times| - 1 && WideGap(times, j, step, radius) && b[p] == Middle(times, j, step, origin);
        MiddleWithinStrip(times, step, radius, j);
      }
    }
    NonDecreasingCons(0.0, b + [len]);
    assert Splits(times, step, radius, origin) == [0.0] + (b + [len]);
  }

  /** A hole of `output_file`: position along the strip, then across it. */
  datatype Hole = Hole(x: real, y: real)

  /** Python's tuple order on `(x, y)`. */
  predicate HoleLe(a: Hole, b: Hole) {
    a.x < b.x || (a.x == b.x && a.y <= b.y)
  }

  lemma {:induction false} HoleLeTotal()
    ensures TotalPreorder(HoleLe)
  {
  }

  /** The hole for a tick of tooth `i`, ticks counted from `start`. */
  function HoleAt(m: BoxModel, step: real, start: int, i: nat, tick: int): Hole {
    Hole(LeadIn + (tick - start) as real * step, i as real * m.distance + m.offset)
  }

  /** The holes before sorting: tooth after tooth, tick after tick. */
  function HoleList(m: BoxModel, step: real, start: int, bands: seq<seq<int>>): (r: seq<Hole>)
    ensures |r| == Encoder.Holes(bands)
    decreases |bands|
  {
    if |bands| == 0 then []
    else
      var n := |bands| - 1;
      HoleList(m, step, start, bands[..n]) + seq(|bands[n]|, k requires 0 <= k < |bands[n]| => HoleAt(m, step, start, n, bands[n][k]))
  }

  /** A hole comes from a tick of some band. */
  ghost predicate HoleOf(m: BoxModel, step: real, start: int, bands: seq<seq<int>>, h: Hole) {
    exists i, k :: 0 <= i < |bands| && 0 <= k < |bands[i]| && h == HoleAt(m, step, start, i, bands[i][k])
  }

  lemma {:induction false} HoleListExact(m: BoxModel, step: real, start: int, bands: seq<seq<int>>)
    ensures forall h :: h in HoleList(m, step, start, bands) <==> HoleOf(m, step, start, bands, h)
    decreases |bands|
  {
    if |bands| > 0 {
      var n := |bands| - 1;
      var init := HoleList(m, step, start, bands[..n]);
      var own := seq(|bands[n]|, k requires 0 <= k < |bands[n]| => HoleAt(m, step, start, n, bands[n][k]));
      assert HoleList(m, step, start, bands) == init + own;
      HoleListExact(m, step, start, bands[..n]);
      forall h
        ensures h in init + own <==> HoleOf(m, step, start, bands, h)
      {
        if h in init {
          var i, k :| 0 <= i < n && 0 <= k < |bands[..n][i]| && h == HoleAt(m, step, start, i, bands[..n][i][k]);
          assert bands[..n][i] == bands[i];
        } else if h in own {
          var k :| 0 <= k < |own| && own[k] == h;
        }
        if HoleOf(m, step, start, bands, h) {
          var i, k :| 0 <= i < |bands| && 0 <= k < |bands[i]| && h == HoleAt(m, step, start, i, bands[i][k]);
          if i == n {
            assert own[k] == h;
          } else {
            assert bands[..n][i] == bands[i];
            assert HoleOf(m, step, start, bands[..n], h);
          }
        }
      }
    }
  }

  /** `holes` after `holes.sort()`: one hole per tick of every band, in
      (x, y) order, x measured from the first tick. */
  function HolePositions(m: BoxModel, bands: seq<seq<int>>, mindelta: int): (r: seq<Hole>)
    requires mindelta != 0 && HasTicks(bands)
    ensures SortedBy(r, HoleLe)
    ensures |r| == Encoder.Holes(bands)
  {
    HoleLeTotal();
    var list := HoleList(m, Step(m, mindelta), Start(bands), bands);
    Sort(list, HoleLe)
  }

  /** The sorted holes are exactly the holes of the bands' ticks. */
  lemma {:induction false} HolePositionsExact(m: BoxModel, bands: seq<seq<int>>, mindelta: int)
    requires mindelta != 0 && HasTicks(bands)
    ensures forall h :: h in HolePositions(m, bands, mindelta) <==> HoleOf(m, Step(m, mindelta), Start(bands), bands, h)
  {
    var list := HoleList(m, Step(m, mindelta), Start(bands), bands);
    HoleListExact(m, Step(m, mindelta), Start(bands), bands);
    HoleLeTotal();
    var r := HolePositions(m, bands, mindelta);
    assert multiset(r) == multiset(list);
    forall h
      ensures h in r <==> h in list
    {
      assert h in r <==> h in multiset(r);
      assert h in list <==> h in multiset(list);
    }
  }

  /** The page splits of a strip: from 0 to the strip length in order, each
      interior one at 0 or at the midpoint of a gap wider than four hole
      radii. */
  lemma {:induction false} PageSplitsPartition(m: BoxModel, bands: seq<seq<int>>, mindelta: int)
    requires mindelta > 0 && m.step >= 0.0 && m.diameter >= 0.0 && HasTicks(bands)
    ensures var r := PageSplits(m, bands, mindelta);
            var times, step, radius := AllTimes(bands), Step(m, mindelta), m.diameter / 2.0;
            && |times| > 0 && r[0] == 0.0 && r[|r| - 1] == Length(times, step, radius)
            && NonDecreasing(r)
            && forall p :: 0 < p < |r| - 1 ==> r[p] == 0.0 || SafeCut(times, step, radius, Start(bands), 1, r[p])
  {
    SomeTime(bands);
    var times, step, radius := AllTimes(bands), Step(m, mindelta), m.diameter / 2.0;
    assert step >= 0.0;
    SplitsAscend(times, step, radius);
    SplitsAtSafeCuts(times, step, radius, Start(bands));
  }

  /** The example strip: one tooth playing at ticks 1000, 1010 and 1020. */
  const ExampleBands: seq<seq<int>> := [[1000, 1010, 1020]]

  lemma {:induction false} ExampleTimes()
    ensures HasTicks(ExampleBands) && AllTimes(ExampleBands) == [1000, 1010, 1020]
  {
    var times := [1000, 1010, 1020];
    assert Flatten(ExampleBands) == times by {
      assert ExampleBands[1..] == [];
      assert Flatten(ExampleBands[1..]) == [];
    }
    assert SortedSet([1000]) == [1000] by {
      assert [1000][..0] == [];
    }
    assert SortedSet([1000, 1010]) == [1000, 1010] by {
      assert [1000, 1010][..1] == [1000];
      assert [1000][1..] == [];
      assert InsertUnique([1000], 1010) == [1000] + InsertUnique([], 1010);
    }
    assert SortedSet(times) == times by {
      assert times[..2] == [1000, 1010];
      assert [1000, 1010][1..] == [1010] && [1010][1..] == [];
      assert InsertUnique([1010], 1020) == [1010] + InsertUnique([], 1020);
      assert InsertUnique([1000, 1010], 1020) == [1000] + InsertUnique([1010], 1020);
    }
  }

  /** The walk as written: cuts at 0 and at 1025. */
  lemma {:induction false} ExampleWrittenWalk()
    ensures Splits([1000, 1010, 1020], 1.0, 0.9, 0) == [0.0, 0.0, 1025.0, 61.8]
  {
    var times := [1000, 1010, 1020];
    assert Length(times, 1.0, 0.9) == 61.8;
    assert Middle(times, 1, 1.0, 0) == 1025.0 && Middle(times, 2, 1.0, 0) == 1035.0;
    assert WideGap(times, 1, 1.0, 0.9) && WideGap(times, 2, 1.0, 0.9);
    assert Breaks(times, 1.0, 0.9, 0, 3, 1025.0, 1035.0) == [];
    assert Breaks(times, 1.0, 0.9, 0, 2, 0.0, 1025.0) == [1025.0];
    assert Breaks(times, 1.0, 0.9, 0, 1, 0.0, 0.0) == [0.0, 1025.0];
  }

  /** The walk from the first tick: no cut. */
  lemma {:induction false} ExampleCorrectedWalk()
    ensures Splits([1000, 1010, 1020], 1.0, 0.9, 1000) == [0.0, 61.8]
  {
    var times := [1000, 1010, 1020];
    assert Length(times, 1.0, 0.9) == 61.8;
    assert Middle(times, 1, 1.0, 1000) == 25.0 && Middle(times, 2, 1.0, 1000) == 35.0;
    assert Breaks(times, 1.0, 0.9, 1000, 3, 0.0, 35.0) == [];
    assert Breaks(times, 1.0, 0.9, 1000, 2, 0.0, 25.0) == [];
    assert Breaks(times, 1.0, 0.9, 1000, 1, 0.0, 0.0) == [];
  }

  /** The splits as written, on a strip starting at tick 1000 with the
      `sankyo15` geometry and `mindelta` 8 (1 mm per tick): the first
      midpoint, 1025 mm, already exceeds a page, so a cut is made at 0 and
      then one at 1025 mm, past the end of the 61.8 mm strip. Measured
      from the first tick, the strip needs no cut. */
  lemma {:induction false} WrittenSplitsOvershoot()
    ensures HasTicks(ExampleBands)
    ensures WrittenPageSplits(Sankyo15, ExampleBands, 8) == [0.0, 0.0, 1025.0, 61.8]
    ensures !NonDecreasing(WrittenPageSplits(Sankyo15, ExampleBands, 8))
    ensures PageSplits(Sankyo15, ExampleBands, 8) == [0.0, 61.8]
  {
    ExampleTimes();
    assert Step(Sankyo15, 8) == 1.0 && Sankyo15.diameter / 2.0 == 0.9;
    assert Start(ExampleBands) == 1000;
    ExampleWrittenWalk();
    ExampleCorrectedWalk();
    var w := WrittenPageSplits(Sankyo15, ExampleBands, 8);
    assert w[2] > w[3];
  }
}
