/** `MidiImporter` of lamusica.py: splits a Standard MIDI File into chunks,
    checks the `MThd` header and collects the note-ons of every `MTrk`
    into the piano roll. */
module Importer {
  import opened Wrappers
  import opened Bytes
  import opened TrackParser
  import opened Notes

  /** The importer's fields plus the roll it fills: the header's time
      division (0 until a header is read), the number of tracks seen, the
      last program change of any track (-1 before the first one) and the
      collected notes. */
  datatype State = State(timediv: int, numTracks: nat, curProgram: int, notes: seq<Note>)

  const Initial := State(0, 0, -1, [])

  /** The program the importer treats as percussion. */
  const Percussion := 127

  /** Collected notes are ordered by track, and by tick within a track. */
  predicate TrackTickOrdered(notes: seq<Note>) {
    forall i, j :: 0 <= i < j < |notes| ==>
      notes[i].track < notes[j].track || (notes[i].track == notes[j].track && notes[i].tick <= notes[j].tick)
  }

  /** What every reachable importer state satisfies: a signed 16-bit time
      division, notes in (track, tick) order, each from a track already
      counted. */
  predicate Consistent(st: State) {
    && -0x8000 <= st.timediv < 0x8000
    && TrackTickOrdered(st.notes)
    && forall n :: n in st.notes ==> 0 <= n.track < st.numTracks
  }

  /** `import_event`: a note-on adds one note (pitch = first data byte; the
      velocity is not looked at) unless the last program change was the
      percussion program; a program change records its program; every
      other command changes nothing. Indexing a missing data byte raises. */
  function ImportEvent(st: State, tick: nat, track: nat, command: seq<Byte>): (r: Result<State, MidiError>)
    requires |command| >= 1
    ensures command[0] / 16 == 0x9 && st.curProgram != Percussion ==>
              && (r.Ok? <==> |command| >= 2)
              && (r.Ok? ==> r.value == st.(notes := st.notes + [Note(command[1], tick, command[0] % 16, track, {})]))
    ensures command[0] / 16 == 0xC ==>
              && (r.Ok? <==> |command| >= 2)
              && (r.Ok? ==> r.value == st.(curProgram := command[1]))
    ensures !(command[0] / 16 == 0x9 && st.curProgram != Percussion) && command[0] / 16 != 0xC ==> r == Ok(st)
  {
    var kind, channel := command[0] / 16, command[0] % 16;
    if kind == 0x9 then
      if st.curProgram == Percussion then Ok(st)
      else if |command| < 2 then Err(IndexOutOfRange)
      else Ok(st.(notes := st.notes + [Note(command[1], tick, channel, track, {})]))
    else if kind == 0xC then
      if |command| < 2 then Err(IndexOutOfRange)
      else Ok(st.(curProgram := command[1]))
    else Ok(st)
  }

  /** Hands the decoded commands of track `track` to `import_event` in
      order; the first error ends the track. Notes of earlier tracks stay
      in front, the new notes carry this track. */
  function ImportEvents(st: State, track: nat, evs: seq<Ticked>): (r: Result<State, MidiError>)
    requires forall i :: 0 <= i < |evs| ==> |evs[i].command| >= 1
    ensures r.Ok? ==> && r.value.timediv == st.timediv && r.value.numTracks == st.numTracks
                      && |st.notes| <= |r.value.notes| && r.value.notes[..|st.notes|] == st.notes
                      && forall k :: |st.notes| <= k < |r.value.notes| ==> r.value.notes[k].track == track
    decreases |evs|
  {
    if |evs| == 0 then Ok(st)
    else
      var afterEvent :- ImportEvent(st, evs[0].tick, track, evs[0].command);
      ImportEvents(afterEvent, track, evs[1..])
  }

  /** A note no earlier, in (track, tick) order, than every collected one
      keeps the collection ordered. */
  lemma {:induction false} AppendOrdered(notes: seq<Note>, n: Note)
    requires TrackTickOrdered(notes)
    requires forall m :: m in notes ==> m.track < n.track || (m.track == n.track && m.tick <= n.tick)
    ensures TrackTickOrdered(notes + [n])
  {
    var all := notes + [n];
    forall i, j | 0 <= i < j < |all|
      ensures all[i].track < all[j].track || (all[i].track == all[j].track && all[i].tick <= all[j].tick)
    {
      assert all[i] == notes[i] && notes[i] in notes;
    }
  }

  /** The notes of one track, imported with ascending ticks after the
      notes of earlier tracks, leave the roll in (track, tick) order. */
  lemma {:induction false} ImportEventsOrdered(st: State, track: nat, evs: seq<Ticked>)
    requires forall i :: 0 <= i < |evs| ==> |evs[i].command| >= 1
    requires TicksAscend(evs) && TrackTickOrdered(st.notes)
    requires forall n :: n in st.notes ==> 0 <= n.track < track || (n.track == track && (|evs| > 0 ==> n.tick <= evs[0].tick))
    ensures ImportEvents(st, track, evs).Ok? ==>
              && TrackTickOrdered(ImportEvents(st, track, evs).value.notes)
              && forall n :: n in ImportEvents(st, track, evs).value.notes ==> 0 <= n.track <= track
    decreases |evs|
  {
    if |evs| > 0 {
      var e := evs[0];
      var step := ImportEvent(st, e.tick, track, e.command);
      if step.Ok? {
        var after := step.value;
        if after.notes != st.notes {
          AppendOrdered(st.notes, Note(e.command[1], e.tick, e.command[0] % 16, track, {}));
        }
        var rest := evs[1..];
        assert TicksAscend(rest) by {
          forall i, j | 0 <= i < j < |rest|
            ensures rest[i].tick <= rest[j].tick
          {
            assert rest[i] == evs[i + 1] && rest[j] == evs[j + 1];
          }
        }
        forall n | n in after.notes
          ensures 0 <= n.track < track || (n.track == track && (|rest| > 0 ==> n.tick <= rest[0].tick))
        {
          if |rest| > 0 {
            assert rest[0] == evs[1] && e.tick <= evs[1].tick;
          }
        }
        assert ImportEvents(st, track, evs) == ImportEvents(after, track, rest);
        ImportEventsOrdered(after, track, rest);
      }
    }
  }

  /** `import_ticked_events` for the next track, which counts as one more
      track once it has been decoded completely. */
  function ImportTrack(st: State, data: seq<Byte>): (r: Result<State, MidiError>)
    ensures r.Ok? ==> && r.value.timediv == st.timediv && r.value.numTracks == st.numTracks + 1
                      && |st.notes| <= |r.value.notes| && r.value.notes[..|st.notes|] == st.notes
    ensures r.Ok? && Consistent(st) ==> Consistent(r.value)
  {
    var scan := DecodeTrack(data, Current);
    match ImportEvents(st, st.numTracks, scan.events)
    case Err(e) => Err(e)
    case Ok(decoded) =>
      if scan.stop.Some? then Err(scan.stop.value)
      else
        var next := State(decoded.timediv, st.numTracks + 1, decoded.curProgram, decoded.notes);
        if Consistent(st) then ImportEventsOrdered(st, st.numTracks, scan.events); Ok(next) else Ok(next)
  }

  /** `import_chunk`: before a header has set a non-zero time division only
      `MThd` is accepted; a second header, or one whose payload is not six
      bytes, raises; `MTrk` chunks are decoded; other chunks are skipped.
      Both header checks test the time division, so a header declaring
      division 0 leaves the importer as if no header had been read. */
  function ImportChunk(st: State, tag: seq<Byte>, data: seq<Byte>): (r: Result<State, MidiError>)
    ensures st.timediv == 0 && tag != HeaderTag ==> r == Err(FirstChunkNotHeader)
    ensures tag == HeaderTag && st.timediv != 0 ==> r == Err(MultipleHeaders)
    ensures tag == HeaderTag && st.timediv == 0 ==>
              r == (if |data| != 6 then Err(InvalidHeader) else Ok(st.(timediv := S16(data[4], data[5]))))
    ensures st.timediv != 0 && tag != HeaderTag && tag != TrackTag ==> r == Ok(st)
    ensures r.Ok? ==> |st.notes| <= |r.value.notes| && r.value.notes[..|st.notes|] == st.notes
    ensures r.Ok? && Consistent(st) ==> Consistent(r.value)
  {
    if st.timediv == 0 && tag != HeaderTag then Err(FirstChunkNotHeader)
    else if tag == HeaderTag then
      if st.timediv != 0 then Err(MultipleHeaders)
      else if |data| != 6 then Err(InvalidHeader)
      else Ok(st.(timediv := S16(data[4], data[5])))
    else if tag == TrackTag then ImportTrack(st, data)
    else Ok(st)
  }

  /** `import_file`'s loop: a tag, a big-endian unsigned length and that many
      bytes per chunk; fewer than eight trailing bytes end the loop quietly,
      a length running past the end raises. */
  function ImportChunks(t: seq<Byte>, st: State): (r: Result<State, MidiError>)
    ensures r.Ok? && Consistent(st) ==> Consistent(r.value)
    decreases |t|
  {
    if |t| < 8 then Ok(st)
    else
      var length := U32(t[4..8]);
      if |t| < 8 + length then Err(TruncatedFile)
      else
        var afterChunk :- ImportChunk(st, t[..4], t[8..8 + length]);
        ImportChunks(t[8 + length..], afterChunk)
  }

  /** Reads a whole file into a fresh importer. The notes come out in
      (track, tick) order. */
  function ImportFile(t: seq<Byte>): (r: Result<State, MidiError>)
    ensures r.Ok? ==> Consistent(r.value)
  {
    ImportChunks(t, Initial)
  }

  /** A chunk written by `Frame` is read back whole: the importer handles
      exactly its tag and payload and continues after it. */
  lemma {:induction false} ChunkFraming(tag: seq<Byte>, data: seq<Byte>, rest: seq<Byte>, st: State)
    requires |tag| == 4 && |data| < 0x8000_0000
    ensures ImportChunks(Frame(tag, data) + rest, st)
         == (var handled := ImportChunk(st, tag, data);
             if handled.Err? then Err(handled.error) else ImportChunks(rest, handled.value))
  {
    var t := Frame(tag, data) + rest;
    assert t[..4] == tag && t[4..8] == Frame(tag, data)[4..8];
    assert t[8..8 + |data|] == data;
    assert t[8 + |data|..] == rest;
  }
}
