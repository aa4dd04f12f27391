/** The piano roll's note record and the music-box models (lamusica.py). */
module Notes {
  import opened Sorting

  /** A collected note-on (`Note` in lamusica.py): pitch, absolute tick,
      channel, track, and the set of cause tags that exclude it from the
      comb. */
  datatype Note = Note(pitch: int, tick: nat, channel: int, track: int, filtered: set<string>)

  /** `sys.maxint` of a 64-bit Python 2: the sentinel the searches start from. */
  const MaxInt := 0x7FFF_FFFF_FFFF_FFFF

  /** The only tag the repetition filter sets or clears. */
  const DeltaTag: string := "delta"

  /** The order the filter and `min_repetition` put the notes in: by pitch,
      then by tick (a sort by tick followed by a stable sort by pitch). */
  predicate PitchTickLe(a: Note, b: Note) {
    a.pitch < b.pitch || (a.pitch == b.pitch && a.tick <= b.tick)
  }

  lemma {:induction false} PitchTickTotal()
    ensures TotalPreorder(PitchTickLe)
  {
  }

  /** The notes in (pitch, tick) order, as `self.notes.sort(...)` twice leaves them.
      Both Python sorts are stable, so notes sharing a pitch and a tick keep
      the order they had in the roll; that order decides which of them the
      repetition filter tags. */
  function ByPitchThenTick(notes: seq<Note>): (r: seq<Note>)
    ensures SortedBy(r, PitchTickLe) && multiset(r) == multiset(notes) && |r| == |notes|
    ensures forall x :: SameKey(r, x, PitchTickLe) == SameKey(notes, x, PitchTickLe)
  {
    PitchTickTotal();
    assert forall x :: SameKey(Sort(notes, PitchTickLe), x, PitchTickLe) == SameKey(notes, x, PitchTickLe) by {
      forall x
        ensures SameKey(Sort(notes, PitchTickLe), x, PitchTickLe) == SameKey(notes, x, PitchTickLe)
      {
        SortStable(notes, x, PitchTickLe);
      }
    }
    Sort(notes, PitchTickLe)
  }
}

/** The comb models of lamusica.py: lowest pitch, tooth offsets, playback
    program and the geometry the layout uses (millimetres). */
module BoxModels {

  datatype BoxModel = BoxModel(
    lowest: int,
    offsets: seq<int>,
    program: int,
    height: real,
    offset: real,
    distance: real,
    diameter: real,
    step: real)

  /** Absolute MIDI pitch of every tooth: `[n + model["lowest"] for n in model["notes"]]`. */
  function Pitches(m: BoxModel): (p: seq<int>)
    ensures |p| == |m.offsets|
    ensures forall i :: 0 <= i < |p| ==> p[i] == m.lowest + m.offsets[i]
  {
    seq(|m.offsets|, i requires 0 <= i < |m.offsets| => m.lowest + m.offsets[i])
  }

  /** Pitches and a program `chr` accepts, so that `output_midi` can
      write them. */
  predicate BoxWritable(m: BoxModel) {
    && (forall i :: 0 <= i < |m.offsets| ==> 0 <= m.lowest + m.offsets[i] < 0x100)
    && 0 <= m.program < 0x100
  }

  const Sankyo15 := BoxModel(56, [0, 2, 4, 5, 7, 9, 11, 12, 14, 16, 17, 19, 21, 23, 24],
                             1, 41.0, 6.0, 2.0, 1.8, 8.0)
  const Sankyo20 := BoxModel(48, [0, 2, 4, 5, 7, 9, 11, 12, 14, 16, 17, 19, 21, 23, 24, 26, 28, 29, 31, 33],
                             2, 70.0, 6.5, 3.0, 2.4, 7.0)
  const Teanola30 := BoxModel(41, [0, 2, 7, 9, 11, 12, 14, 16, 17, 18, 19, 20, 21, 22, 23, 24, 25, 26,
                                   27, 28, 29, 30, 31, 32, 33, 34, 35, 36, 38, 40],
                              3, 70.0, 6.0, 2.0, 1.8, 8.0)
  const Sankyo33 := BoxModel(48, [0, 2, 3, 4, 5, 6, 7, 8, 9, 10, 11, 12, 13, 14, 15, 16, 17, 18, 19, 20,
                                  21, 22, 23, 24, 25, 26, 27, 28, 29, 30, 31, 32, 33],
                             4, 70.0, 5.3, 1.8, 1.7, 8.0)
}
