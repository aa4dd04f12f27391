/** Reading back the files `output_midi` writes for a comb: the importer
    finds exactly one note per hole, at the hole's tick and the tooth's
    pitch. */
module BoxReadBack {
  import opened Wrappers
  import opened Bytes
  import Vlq
  import opened Notes
  import opened TrackParser
  import opened Importer
  import opened Encoder
  import opened RoundTrip

  /** Every note-off tick survives the 28-bit delta-time encoding. */
  predicate TicksFit(bands: seq<seq<int>>, delay: int) {
    forall i, k :: 0 <= i < |bands| && 0 <= k < |bands[i]| ==> bands[i][k] + delay < Vlq.Limit
  }

  /** The note the importer records for the hole at `bands[i][k]`. */
  ghost predicate HoleNote(pitches: seq<int>, bands: seq<seq<int>>, n: Note)
    requires |pitches| == |bands|
  {
    exists i, k :: 0 <= i < |bands| && 0 <= k < |bands[i]| && bands[i][k] >= 0 &&
      n == Note(pitches[i], bands[i][k], 0, 0, {})
  }

  /** Each written event is the note-on or the note-off of a hole. */
  lemma {:induction false} WrittenOrigin(pitches: seq<int>, bands: seq<seq<int>>, delay: int, e: NoteEvent)
    requires |pitches| == |bands| && Schedulable(bands, delay)
    requires e in SortedEvents(pitches, bands, delay)
    ensures exists i, k :: 0 <= i < |bands| && 0 <= k < |bands[i]| &&
              (e == NoteEvent(bands[i][k], pitches[i], true) || e == NoteEvent(bands[i][k] + delay, pitches[i], false))
  {
    var all := AllEvents(pitches, bands, delay);
    assert e in multiset(SortedEvents(pitches, bands, delay));
    assert e in all;
    AllEventsOrigin(pitches, bands, delay);
  }

  /** Fitting ticks give events the decoder reads back exactly. */
  lemma {:induction false} WrittenInRange(pitches: seq<int>, bands: seq<seq<int>>, delay: int)
    requires |pitches| == |bands| && Schedulable(bands, delay) && TicksFit(bands, delay)
    ensures InRange(SortedEvents(pitches, bands, delay))
  {
    var r := SortedEvents(pitches, bands, delay);
    forall j | 0 <= j < |r|
      ensures r[j].tick < Vlq.Limit
    {
      WrittenOrigin(pitches, bands, delay, r[j]);
    }
  }

  /** A recorded note-on is a hole. */
  lemma {:induction false} NoteOnIsHole(pitches: seq<int>, bands: seq<seq<int>>, delay: int, n: Note)
    requires |pitches| == |bands| && Schedulable(bands, delay)
    requires n in OnNotes(SortedEvents(pitches, bands, delay))
    ensures HoleNote(pitches, bands, n)
  {
    var r := SortedEvents(pitches, bands, delay);
    var j :| 0 <= j < |r| && r[j].on && n == Note(r[j].pitch, r[j].tick, 0, 0, {});
    WrittenOrigin(pitches, bands, delay, r[j]);
  }

  /** A hole is recorded as a note-on. */
  lemma {:induction false} HoleIsNoteOn(pitches: seq<int>, bands: seq<seq<int>>, delay: int, n: Note)
    requires |pitches| == |bands| && Schedulable(bands, delay)
    requires HoleNote(pitches, bands, n)
    ensures n in OnNotes(SortedEvents(pitches, bands, delay))
  {
    var i, k :| 0 <= i < |bands| && 0 <= k < |bands[i]| && bands[i][k] >= 0 && n == Note(pitches[i], bands[i][k], 0, 0, {});
    AllEventsCover(pitches, bands, delay);
    var e := NoteEvent(bands[i][k], pitches[i], true);
    var r := SortedEvents(pitches, bands, delay);
    assert e in multiset(r);
    var j :| 0 <= j < |r| && r[j] == e;
  }

  /** The recorded notes are exactly the holes. */
  lemma {:induction false} NotesAreHoles(pitches: seq<int>, bands: seq<seq<int>>, delay: int)
    requires |pitches| == |bands| && Schedulable(bands, delay)
    ensures forall n :: n in OnNotes(SortedEvents(pitches, bands, delay)) <==> HoleNote(pitches, bands, n)
  {
    forall n
      ensures n in OnNotes(SortedEvents(pitches, bands, delay)) <==> HoleNote(pitches, bands, n)
    {
      if n in OnNotes(SortedEvents(pitches, bands, delay)) {
        NoteOnIsHole(pitches, bands, delay, n);
      }
      if HoleNote(pitches, bands, n) {
        HoleIsNoteOn(pitches, bands, delay, n);
      }
    }
  }

  /** What the importer makes of a comb file: the time division, one
      track, the program it was written with, and one note per hole
      unless that program is the percussion program. */
  ghost predicate ReadsAsComb(r: Result<State, MidiError>, timediv: int, program: int, pitches: seq<int>, bands: seq<seq<int>>)
    requires |pitches| == |bands|
  {
    && r.Ok? && r.value.timediv == timediv && r.value.numTracks == 1 && r.value.curProgram == program
    && (program == Percussion ==> r.value.notes == [])
    && (program != Percussion ==> forall n :: n in r.value.notes <==> HoleNote(pitches, bands, n))
  }

  /** Reading back `output_midi` of lamusica.py. */
  lemma {:induction false} OutputReadBack(timediv: int, program: Byte, pitches: seq<int>, bands: seq<seq<int>>, mindelta: int)
    requires -0x8000 <= timediv < 0x8000 && timediv != 0
    requires |pitches| == |bands| && ByteSized(pitches) && Schedulable(bands, mindelta) && TicksFit(bands, mindelta)
    requires OutputMidi(timediv, program, pitches, bands, mindelta).Some?
    ensures ReadsAsComb(ImportFile(OutputMidi(timediv, program, pitches, bands, mindelta).value), timediv, program, pitches, bands)
  {
    WrittenInRange(pitches, bands, mindelta);
    ReadBack(timediv, Some(program), SortedEvents(pitches, bands, mindelta));
    NotesAreHoles(pitches, bands, mindelta);
  }

  /** Reading back `output_midi` of midi.py: no program change, so the
      importer keeps its initial program -1 and records every hole. */
  lemma {:induction false} LegacyOutputReadBack(timediv: int, pitches: seq<int>, bands: seq<seq<int>>)
    requires -0x8000 <= timediv < 0x8000 && timediv != 0
    requires |pitches| == |bands| && ByteSized(pitches) && Schedulable(bands, LegacyOffDelay) && TicksFit(bands, LegacyOffDelay)
    requires LegacyOutputMidi(timediv, pitches, bands).Some?
    ensures ReadsAsComb(ImportFile(LegacyOutputMidi(timediv, pitches, bands).value), timediv, -1, pitches, bands)
  {
    WrittenInRange(pitches, bands, LegacyOffDelay);
    ReadBack(timediv, None, SortedEvents(pitches, bands, LegacyOffDelay));
    NotesAreHoles(pitches, bands, LegacyOffDelay);
  }
}
