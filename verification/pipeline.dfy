/** The main flows of lamusica.py and of midi.py, with option parsing,
    printing, file output and drawing left out: the input is the file's
    bytes, the output what would be written. */
module Pipeline {
  import opened Wrappers
  import opened Bytes
  import opened Notes
  import opened BoxModels
  import opened TrackParser
  import opened Importer
  import Repetition
  import Transpose
  import Band
  import Encoder
  import Layout
  import BoxReadBack
  import LegacyReader
  import LegacyBand

  /** Where the lamusica.py flow stops early: an unreadable file, or a
      roll without notes (`self.notes[0]` raises). */
  datatype Failure = Unreadable(error: MidiError) | EmptyRoll

  /** The strip of `output_file`: page splits and hole positions. */
  datatype PaperStrip = PaperStrip(splits: seq<real>, holes: seq<Layout.Hole>)

  /** What the lamusica.py flow computes: the filtered roll, the shift with
      its unplayable count (none when the shift was given), the tooth
      bands, the smallest repetition, the MIDI file (none when too long for
      its length field) and the strip (none when no tick reaches a tooth,
      where `alltimes[0]` raises). */
  datatype Outcome = Outcome(
    timediv: int,
    roll: seq<Note>,
    transpose: int,
    unplayable: Option<int>,
    bands: seq<seq<int>>,
    mindelta: int,
    midi: Option<seq<Byte>>,
    strip: Option<PaperStrip>)

  /** The bands of `get_compat_band` hold tick counts. */
  lemma {:induction false} BandTicksNatural(m: BoxModel, notes: seq<Note>, transpose: int)
    ensures Encoder.Schedulable(Band.CompatBand(m, notes, transpose), 0)
  {
    var bands := Band.CompatBand(m, notes, transpose);
    forall i, k | 0 <= i < |bands| && 0 <= k < |bands[i]|
      ensures bands[i][k] >= 0
    {
      var t := bands[i][k];
      assert t in bands[i];
      var j :| 0 <= j < |notes| && notes[j].tick == t && Band.Feeds(notes[j], Band.SourcePitches(Pitches(m), i), transpose);
    }
  }

  /** The shift of the lamusica.py flow: the one given with `-t`, else the
      one `find_transpose` picks with octaves and halftones allowed,
      together with its unplayable count. */
  method ChooseShift(roll: seq<Note>, avail: seq<int>, transpose: Option<int>)
    returns (shift: int, unplayable: Option<int>)
    requires |roll| > 0 && |avail| > 0
    ensures transpose.Some? ==> shift == transpose.value && unplayable == None
    ensures transpose.None? ==> unplayable.Some? && Transpose.Chosen(roll, avail, true, true, shift, unplayable.value)
  {
    if transpose.Some? {
      return transpose.value, None;
    }
    var found, err := Transpose.FindTranspose(roll, avail, true, true);
    shift, unplayable := found.value, Some(err);
  }

  /** The piano-roll part of the lamusica.py flow for a non-empty roll:
      filter repetitions, choose the shift, map onto the teeth, take the
      smallest repetition. */
  method Arrange(m: BoxModel, notes: seq<Note>, filter: int, transpose: Option<int>)
    returns (roll: seq<Note>, shift: int, unplayable: Option<int>, bands: seq<seq<int>>, mindelta: int)
    requires |m.offsets| > 0 && |notes| > 0
    ensures roll == Repetition.FilterRepetition(notes, filter).0
    ensures transpose.Some? ==> shift == transpose.value && unplayable == None
    ensures transpose.None? ==> unplayable.Some? && Transpose.Chosen(roll, Pitches(m), true, true, shift, unplayable.value)
    ensures bands == Band.CompatBand(m, roll, shift)
    ensures 0 < mindelta <= MaxInt && Repetition.BelowGaps(roll, mindelta)
    ensures mindelta < MaxInt ==> Repetition.IsGap(roll, mindelta)
  {
    roll := Repetition.FilterRepetition(notes, filter).0;
    shift, unplayable := ChooseShift(roll, Pitches(m), transpose);
    bands := Band.CompatBand(m, roll, shift);
    mindelta := Repetition.MinRepetition(roll);
  }

  /** `output_midi` of lamusica.py for box `m`; the file reads back as the
      comb whenever the division is not 0 and every note-off fits the
      28-bit delta time. */
  function WriteMidi(m: BoxModel, timediv: int, bands: seq<seq<int>>, mindelta: int): (r: Option<seq<Byte>>)
    requires BoxWritable(m) && -0x8000 <= timediv < 0x8000 && |bands| == |m.offsets| && Encoder.Schedulable(bands, mindelta)
    ensures r == Encoder.OutputMidi(timediv, m.program, Pitches(m), bands, mindelta)
    ensures r.Some? <==> |Encoder.TrackPayload(Some(m.program), Encoder.SortedEvents(Pitches(m), bands, mindelta))| < 0x8000_0000
    ensures r.Some? && timediv != 0 && BoxReadBack.TicksFit(bands, mindelta) ==>
              BoxReadBack.ReadsAsComb(ImportFile(r.value), timediv, m.program, Pitches(m), bands)
  {
    var program: Byte := m.program;
    var midi := Encoder.OutputMidi(timediv, program, Pitches(m), bands, mindelta);
    if midi.Some? && timediv != 0 && BoxReadBack.TicksFit(bands, mindelta) then
      BoxReadBack.OutputReadBack(timediv, program, Pitches(m), bands, mindelta);
      midi
    else midi
  }

  /** The strip of `output_file`: none when no tick reaches a tooth; else
      the splits run from 0 to the strip length in order, and there is one
      hole per tick of every band, in (x, y) order. */
  function LayOut(m: BoxModel, bands: seq<seq<int>>, mindelta: int): (r: Option<PaperStrip>)
    requires mindelta > 0
    ensures r.Some? <==> Layout.HasTicks(bands)
    ensures r.Some? ==>
              && |r.value.holes| == Encoder.Holes(bands) && Sorting.SortedBy(r.value.holes, Layout.HoleLe)
              && |r.value.splits| >= 2 && r.value.splits[0] == 0.0
              && (m.step >= 0.0 && m.diameter >= 0.0 ==> Layout.NonDecreasing(r.value.splits))
    ensures r.Some? ==> r.value.splits == Layout.PageSplits(m, bands, mindelta)
    ensures r.Some? ==>
              forall h :: h in r.value.holes <==> Layout.HoleOf(m, Layout.Step(m, mindelta), Layout.Start(bands), bands, h)
  {
    if !Layout.HasTicks(bands) then None
    else
      Layout.HolePositionsExact(m, bands, mindelta);
      if m.step >= 0.0 && m.diameter >= 0.0 then
        Layout.PageSplitsPartition(m, bands, mindelta);
        Some(PaperStrip(Layout.PageSplits(m, bands, mindelta), Layout.HolePositions(m, bands, mindelta)))
      else Some(PaperStrip(Layout.PageSplits(m, bands, mindelta), Layout.HolePositions(m, bands, mindelta)))
  }

  /** The lamusica.py main flow for box `m`, repetition filter `filter` and
      an optional fixed shift: import, arrange the roll on the comb, write
      the MIDI file, lay out the strip. */
  method Run(m: BoxModel, file: seq<Byte>, filter: int, transpose: Option<int>) returns (r: Result<Outcome, Failure>)
    requires BoxWritable(m) && |m.offsets| > 0
    ensures ImportFile(file).Err? ==> r == Err(Unreadable(ImportFile(file).error))
    ensures ImportFile(file).Ok? && |ImportFile(file).value.notes| == 0 ==> r == Err(EmptyRoll)
    ensures ImportFile(file).Ok? && |ImportFile(file).value.notes| > 0 ==> r.Ok?
    ensures r.Ok? ==>
              && ImportFile(file).Ok? && |ImportFile(file).value.notes| > 0
              && r.value.timediv == ImportFile(file).value.timediv
              && r.value.roll == Repetition.FilterRepetition(ImportFile(file).value.notes, filter).0
              && r.value.bands == Band.CompatBand(m, r.value.roll, r.value.transpose)
              && (transpose.Some? ==> r.value.transpose == transpose.value && r.value.unplayable == None)
              && (transpose.None? ==>
                    r.value.unplayable.Some? && Transpose.Chosen(r.value.roll, Pitches(m), true, true, r.value.transpose, r.value.unplayable.value))
              && 0 < r.value.mindelta <= MaxInt && Repetition.BelowGaps(r.value.roll, r.value.mindelta)
    ensures r.Ok? && r.value.midi.Some? && r.value.timediv != 0 && BoxReadBack.TicksFit(r.value.bands, r.value.mindelta) ==>
              BoxReadBack.ReadsAsComb(ImportFile(r.value.midi.value), r.value.timediv, m.program, Pitches(m), r.value.bands)
    ensures r.Ok? ==> (r.value.strip.Some? <==> Layout.HasTicks(r.value.bands))
    ensures r.Ok? ==>
              && r.value.mindelta > 0 && Encoder.Schedulable(r.value.bands, r.value.mindelta)
              && -0x8000 <= r.value.timediv < 0x8000 && |r.value.bands| == |m.offsets|
              && r.value.midi == WriteMidi(m, r.value.timediv, r.value.bands, r.value.mindelta)
              && r.value.strip == LayOut(m, r.value.bands, r.value.mindelta)
    ensures r.Ok? && r.value.mindelta < MaxInt ==> Repetition.IsGap(r.value.roll, r.value.mindelta)
  {
    var imported := ImportFile(file);
    if imported.Err? {
      return Err(Unreadable(imported.error));
    }
    var st := imported.value;
    if |st.notes| == 0 {
      return Err(EmptyRoll);
    }
    var roll, shift, unplayable, bands, mindelta := Arrange(m, st.notes, filter, transpose);
    BandTicksNatural(m, roll, shift);
    var midi := WriteMidi(m, st.timediv, bands, mindelta);
    var strip := LayOut(m, bands, mindelta);
    r := Ok(Outcome(st.timediv, roll, shift, unplayable, bands, mindelta, midi, strip));
  }

  /** The tracks the midi.py main flow decodes. */
  const LegacyTracks: set<nat> := {0, 1, 2, 3, 4}

  /** The `sanyo33` box of midi.py, the box its main flow uses: 34 teeth,
      C3 and then every semitone from D3 up, one more than the `sankyo33`
      of lamusica.py. midi.py defines no program for it; 0 stands in, and
      its writer does not emit one. */
  const LegacySanyo33 := BoxModel(48, [0] + seq(33, i => i + 2), 0, 70.0, 2.0, 2.0, 1.5, 9.0)

  lemma {:induction false} LegacyBoxWritable()
    ensures |LegacySanyo33.offsets| == 34 && Encoder.ByteSized(Pitches(LegacySanyo33))
  {
  }

  /** What the midi.py flow computes: the globals after reading, the
      prepared band with its shift and error count, and the MIDI file. */
  datatype LegacyOutcome = LegacyOutcome(
    reader: LegacyReader.Reader,
    prepared: LegacyBand.Prepared,
    transpose: int,
    err: int,
    midi: Option<seq<Byte>>)

  /** The prepared bands of a band of tick counts hold tick counts. */
  lemma {:induction false} PreparedTicksNatural(band: LegacyReader.Band, notes: seq<int>, transpose: int)
    requires LegacyReader.TicksNatural(band) && LegacyBand.MapBand(band, notes, transpose).Ok?
    ensures Encoder.Schedulable(LegacyBand.MapBand(band, notes, transpose).value.notelist, Encoder.LegacyOffDelay)
  {
    var notelist := LegacyBand.MapBand(band, notes, transpose).value.notelist;
    forall i, k | 0 <= i < |notelist| && 0 <= k < |notelist[i]|
      ensures notelist[i][k] >= 0
    {
      var x := notelist[i][k];
      assert x in notelist[i];
      var ticks := band[LegacyBand.PyIndex(notes[i] - transpose)];
      assert x in ticks;
      var j :| 0 <= j < |ticks| && ticks[j] == x;
    }
  }

  /** `output_midi` of midi.py for box `m`; the file reads back through
      lamusica.py's importer as the comb, with program -1, whenever the
      division is not 0 and every note-off fits the 28-bit delta time. */
  function LegacyWriteMidi(m: BoxModel, timediv: int, bands: seq<seq<int>>): (r: Option<seq<Byte>>)
    requires Encoder.ByteSized(Pitches(m)) && -0x8000 <= timediv < 0x8000 && |bands| == |m.offsets|
    requires Encoder.Schedulable(bands, Encoder.LegacyOffDelay)
    ensures r == Encoder.LegacyOutputMidi(timediv, Pitches(m), bands)
    ensures r.Some? <==> |Encoder.TrackPayload(None, Encoder.SortedEvents(Pitches(m), bands, Encoder.LegacyOffDelay))| < 0x8000_0000
    ensures r.Some? && timediv != 0 && BoxReadBack.TicksFit(bands, Encoder.LegacyOffDelay) ==>
              BoxReadBack.ReadsAsComb(ImportFile(r.value), timediv, -1, Pitches(m), bands)
  {
    var midi := Encoder.LegacyOutputMidi(timediv, Pitches(m), bands);
    if midi.Some? && timediv != 0 && BoxReadBack.TicksFit(bands, Encoder.LegacyOffDelay) then
      BoxReadBack.LegacyOutputReadBack(timediv, Pitches(m), bands);
      midi
    else midi
  }

  /** The midi.py main flow for box `m` (midi.py uses `LegacySanyo33`):
      read tracks 0 to 4, prepare the band with octave shifts only, write
      the MIDI file. */
  method LegacyRun(m: BoxModel, file: seq<Byte>) returns (r: Result<LegacyOutcome, MidiError>, shift: int, err: int)
    requires Encoder.ByteSized(Pitches(m)) && |m.offsets| > 0
    ensures LegacyReader.ReadMidi(file, LegacyTracks).Err? ==> r == Err(LegacyReader.ReadMidi(file, LegacyTracks).error)
    ensures LegacyReader.ReadMidi(file, LegacyTracks).Ok? ==>
              && shift % 12 == 0
              && LegacyBand.ChosenShift(LegacyReader.ReadMidi(file, LegacyTracks).value.band, Pitches(m), false, shift, err)
              && (r.Ok? <==> LegacyBand.MapBand(LegacyReader.ReadMidi(file, LegacyTracks).value.band, Pitches(m), shift).Ok?)
              && (r.Err? ==> r == Err(IndexOutOfRange))
              && (r.Ok? ==> r.value.transpose == shift)
    ensures r.Ok? ==>
              && LegacyReader.ReadMidi(file, LegacyTracks) == Ok(r.value.reader)
              && LegacyBand.MapBand(r.value.reader.band, Pitches(m), r.value.transpose) == Ok(r.value.prepared)
              && r.value.transpose % 12 == 0
              && r.value.err == err
    ensures r.Ok? ==>
              && -0x8000 <= r.value.reader.timediv < 0x8000
              && Encoder.Schedulable(r.value.prepared.notelist, Encoder.LegacyOffDelay)
              && |r.value.prepared.notelist| == |m.offsets|
              && r.value.midi == LegacyWriteMidi(m, r.value.reader.timediv, r.value.prepared.notelist)
    ensures r.Ok? && r.value.midi.Some? && r.value.reader.timediv != 0 &&
            BoxReadBack.TicksFit(r.value.prepared.notelist, Encoder.LegacyOffDelay) ==>
              BoxReadBack.ReadsAsComb(ImportFile(r.value.midi.value), r.value.reader.timediv, -1, Pitches(m), r.value.prepared.notelist)
  {
    shift, err := 0, MaxInt;
    var read := LegacyReader.ReadMidi(file, LegacyTracks);
    if read.Err? {
      return Err(read.error), shift, err;
    }
    var st := read.value;
    var prepared;
    prepared, shift, err := LegacyBand.PrepareBand(m, st.band, false);
    LegacyBand.ChosenOctaves(st.band, Pitches(m), shift, err);
    if prepared.Err? {
      return Err(prepared.error), shift, err;
    }
    var p := prepared.value;
    PreparedTicksNatural(st.band, Pitches(m), shift);
    var midi := LegacyWriteMidi(m, st.timediv, p.notelist);
    r := Ok(LegacyOutcome(st, p, shift, err, midi));
  }
}
