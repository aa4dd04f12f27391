/** `prepare_band` of midi.py: picks a transposition for the pitches the
    reader collected, gives every tooth the ticks of the one pitch that
    lands on it (no octave folding), and reports the smallest gap. */
module LegacyBand {
  import opened Wrappers
  import opened Sorting
  import opened Notes
  import opened BoxModels
  import opened TrackParser
  import opened LegacyReader
  import opened Deltas
  import Transpose

  /** A pitch the reader saw at least once. */
  predicate Used(band: Band, i: int) {
    0 <= i < PitchSlots && |band[i]| > 0
  }

  /** `lowest`: the lowest used pitch from `i` up, or 127 when there is
      none. */
  function LowestFrom(band: Band, i: nat): (r: int)
    requires i <= PitchSlots
    ensures r == PitchSlots - 1 || (i <= r && Used(band, r))
    ensures forall j :: i <= j && Used(band, j) ==> r <= j
    decreases PitchSlots - i
  {
    if i == PitchSlots then PitchSlots - 1
    else if |band[i]| > 0 then i
    else LowestFrom(band, i + 1)
  }

  /** `highest`: the highest used pitch below `n`, or 0 when there is none.
      The source writes `highest = max (lowest, i)`, which is `i` because
      `lowest` has just been lowered to at most `i`. */
  function HighestBelow(band: Band, n: nat): (r: int)
    requires n <= PitchSlots
    ensures r == 0 || (r < n && Used(band, r))
    ensures forall j :: j < n && Used(band, j) ==> j <= r
    decreases n
  {
    if n == 0 then 0
    else if |band[n - 1]| > 0 then n - 1
    else HighestBelow(band, n - 1)
  }

  /** `errcount` over the pitches below `n`: every tick of a used pitch
      that the shift moves off the comb. */
  function Misplaced(band: Band, notes: seq<int>, trans: int, n: nat): (r: nat)
    requires n <= PitchSlots
    decreases n
  {
    if n == 0 then 0
    else Misplaced(band, notes, trans, n - 1) + (if Used(band, n - 1) && n - 1 + trans !in notes then |band[n - 1]| else 0)
  }

  function Errors(band: Band, notes: seq<int>, trans: int): nat {
    Misplaced(band, notes, trans, |band|)
  }

  /** No tick is lost exactly when every used pitch lands on a tooth. */
  lemma {:induction false} MisplacedNone(band: Band, notes: seq<int>, trans: int, n: nat)
    requires n <= PitchSlots
    ensures Misplaced(band, notes, trans, n) == 0 <==> forall i :: 0 <= i < n && Used(band, i) ==> i + trans in notes
    decreases n
  {
    if n > 0 {
      MisplacedNone(band, notes, trans, n - 1);
    }
  }

  /** A shift the search considers: any one with halftones allowed, else
      whole octaves. */
  predicate Admitted(trans: int, allowTrans: bool) {
    allowTrans || trans % 12 == 0
  }

  /** Where the loop of `prepare_band` over the shifts `lo..hi` settles,
      `cost(t)` being the error count of shift `t`: the first admitted
      shift with the fewest lost ticks (a strict `<`, so no tie-break by
      size), with its count; 0 with error `sys.maxint` when no shift
      improves on that. */
  predicate Settled(cost: int -> nat, allowTrans: bool, lo: int, hi: int, transpose: int, err: int) {
    && err <= MaxInt
    && (err == MaxInt ==> transpose == 0)
    && (err < MaxInt ==>
          && lo <= transpose <= hi && Admitted(transpose, allowTrans) && err == cost(transpose)
          && forall t :: lo <= t < transpose && Admitted(t, allowTrans) ==> cost(t) > err)
    && (forall t :: lo <= t <= hi && Admitted(t, allowTrans) ==> err <= cost(t))
  }

  /** The loop of `prepare_band` over the shifts `lo..hi`. */
  method LegacyShift(cost: int -> nat, allowTrans: bool, lo: int, hi: int) returns (transpose: int, err: int)
    ensures Settled(cost, allowTrans, lo, hi, transpose, err)
  {
    transpose, err := 0, MaxInt;
    if hi < lo {
      return;
    }
    var trans := lo;
    while trans <= hi
      invariant lo <= trans <= hi + 1
      invariant err <= MaxInt && (err == MaxInt ==> transpose == 0)
      invariant err < MaxInt ==>
                  && lo <= transpose < trans && Admitted(transpose, allowTrans) && err == cost(transpose)
                  && forall t :: lo <= t < transpose && Admitted(t, allowTrans) ==> cost(t) > err
      invariant forall t :: lo <= t < trans && Admitted(t, allowTrans) ==> err <= cost(t)
    {
      if Admitted(trans, allowTrans) && cost(trans) < err {
        transpose, err := trans, cost(trans);
      }
      trans := trans + 1;
    }
  }

  /** Python's `band[i]` for `-128 <= i < 128`: a negative index counts
      from the end. */
  function PyIndex(i: int): (r: nat)
    requires -PitchSlots <= i < PitchSlots
    ensures r < PitchSlots && (i >= 0 ==> r == i) && (i < 0 ==> r == i + PitchSlots)
  {
    if i < 0 then i + PitchSlots else i
  }

  /** What `prepare_band` returns: the tick list of every tooth and the
      smallest gap. */
  datatype Prepared = Prepared(notelist: seq<seq<int>>, mindelta: int)

  /** The number of gaps `prepare_band` prints. */
  const ShownGaps := 15

  /** Every pitch `notes[i] - transpose` is an index `band[...]` accepts. */
  predicate Indexable(notes: seq<int>, transpose: int) {
    forall i :: 0 <= i < |notes| ==> -PitchSlots <= notes[i] - transpose < PitchSlots
  }

  /** `notelist`: tooth `i` gets the sorted distinct ticks of pitch
      `notes[i] - transpose`, looked up with Python's indexing. */
  function TeethTicks(band: Band, notes: seq<int>, transpose: int): (r: seq<seq<int>>)
    requires Indexable(notes, transpose)
    ensures |r| == |notes|
    ensures forall i :: 0 <= i < |notes| ==>
              && StrictlyAscending(r[i])
              && forall x :: x in r[i] <==> x in band[PyIndex(notes[i] - transpose)]
  {
    seq(|notes|, i requires 0 <= i < |notes| => SortedSet(band[PyIndex(notes[i] - transpose)]))
  }

  /** The second half of `prepare_band`: the teeth's tick lists, then the
      gap table. It fails only with an IndexError: a pitch outside
      `band`, or fewer distinct gaps than the fifteen it prints. */
  function MapBand(band: Band, notes: seq<int>, transpose: int): (r: Result<Prepared, MidiError>)
    ensures !Indexable(notes, transpose) ==> r == Err(IndexOutOfRange)
    ensures Indexable(notes, transpose) ==> (r.Ok? <==> |SortedSet(Gaps(TeethTicks(band, notes, transpose)))| >= ShownGaps)
    ensures r.Err? ==> r.error == IndexOutOfRange
    ensures r.Ok? ==>
              && |r.value.notelist| == |notes|
              && forall i :: 0 <= i < |notes| ==>
                   && -PitchSlots <= notes[i] - transpose < PitchSlots
                   && StrictlyAscending(r.value.notelist[i])
                   && forall x :: x in r.value.notelist[i] <==> x in band[PyIndex(notes[i] - transpose)]
    ensures r.Ok? ==> SmallestGap(r.value.notelist, ShownGaps) == Ok(r.value.mindelta)
  {
    if !Indexable(notes, transpose) then Err(IndexOutOfRange)
    else
      var lists := TeethTicks(band, notes, transpose);
      var mindelta :- SmallestGap(lists, ShownGaps);
      Ok(Prepared(lists, mindelta))
  }

  /** The returned delta is a positive gap between consecutive ticks of
      some tooth, and no such gap is smaller. */
  lemma {:induction false} MapBandDelta(band: Band, notes: seq<int>, transpose: int)
    requires MapBand(band, notes, transpose).Ok?
    ensures var p := MapBand(band, notes, transpose).value;
            && p.mindelta > 0
            && IsGap(p.notelist, p.mindelta)
            && forall i, j :: 0 <= i < |p.notelist| && 0 <= j < |p.notelist[i]| - 1 ==> p.mindelta <= Gap(p.notelist[i], j)
  {
    var p := MapBand(band, notes, transpose).value;
    SmallestGapIsLeast(p.notelist, ShownGaps);
    var i, j :| 0 <= i < |p.notelist| && 0 <= j < |p.notelist[i]| - 1 && p.mindelta == Gap(p.notelist[i], j);
    assert p.notelist[i][j] < p.notelist[i][j + 1];
  }

  /** The first shift `prepare_band` tries: `min(notes) - highest - 1`. */
  function SearchLow(band: Band, notes: seq<int>): int
    requires |notes| > 0
  {
    Transpose.MinOf(notes) - HighestBelow(band, PitchSlots) - 1
  }

  /** The last shift `prepare_band` tries: `max(notes) - lowest + 1`. */
  function SearchHigh(band: Band, notes: seq<int>): int
    requires |notes| > 0
  {
    Transpose.MaxOf(notes) - LowestFrom(band, 0) + 1
  }

  /** The shift and error count the search of `prepare_band` settles on
      for the used pitches of `band` and the teeth `notes`. */
  predicate ChosenShift(band: Band, notes: seq<int>, allowTrans: bool, transpose: int, err: int)
    requires |notes| > 0
  {
    Settled(t => Errors(band, notes, t), allowTrans, SearchLow(band, notes), SearchHigh(band, notes), transpose, err)
  }

  /** Without halftone shifts the chosen shift is whole octaves. */
  lemma {:induction false} ChosenOctaves(band: Band, notes: seq<int>, transpose: int, err: int)
    requires |notes| > 0 && ChosenShift(band, notes, false, transpose, err)
    ensures transpose % 12 == 0
  {
  }

  /** `prepare_band`: the lowest and highest used pitch bound the shifts
      searched, `[min(notes) - highest - 1, max(notes) - lowest + 1]`; the
      first shift losing the fewest ticks is taken, with its error count
      (`transpose_error`), and the band is mapped onto the teeth with it.
      `min` of the model's pitches needs a tooth. */
  method PrepareBand(m: BoxModel, band: Band, allowTrans: bool)
    returns (r: Result<Prepared, MidiError>, transpose: int, err: int)
    requires |m.offsets| > 0
    ensures r == MapBand(band, Pitches(m), transpose)
    ensures ChosenShift(band, Pitches(m), allowTrans, transpose, err)
  {
    var notes := Pitches(m);
    transpose, err := LegacyShift(t => Errors(band, notes, t), allowTrans, SearchLow(band, notes), SearchHigh(band, notes));
    r := MapBand(band, notes, transpose);
  }
}
