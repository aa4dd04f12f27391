/** The reader of midi.py: `read_midi`, `handle_chunk`,
    `handle_midi_ticked_events` and `handle_midi_event`. Its module globals
    (`band`, `trktime`, `cur_track`, `delta_ticks`) are threaded through as
    an explicit state. */
module LegacyReader {
  import opened Wrappers
  import opened Bytes
  import opened TrackParser
  import Importer

  /** Number of pitch slots of the global `band`. */
  const PitchSlots := 128

  /** `band`: for every pitch, the ticks it was struck at, in the order
      the keys were first set; setting a key twice keeps one entry. */
  type Band = b: seq<seq<int>> | |b| == PitchSlots witness seq(PitchSlots, _ => [])

  /** `[ {} for i in range (128) ]`. */
  function EmptyBand(): Band {
    seq(PitchSlots, _ => [])
  }

  /** The reader's globals: `delta_ticks`, `cur_track` and `band`. */
  datatype Reader = Reader(timediv: int, curTrack: nat, band: Band)

  const Initial := Reader(0, 0, EmptyBand())

  /** A note-on command whose pitch byte can be read: it strikes `pitch`. */
  predicate Strikes(command: seq<Byte>, pitch: int) {
    |command| >= 2 && command[0] / 16 == 0x9 && command[1] == pitch
  }

  /** A note-on the handler cannot store: no pitch byte, or a pitch byte
      past the end of `band`. */
  predicate Unstorable(command: seq<Byte>) {
    |command| >= 1 && command[0] / 16 == 0x9 && (|command| < 2 || command[1] >= PitchSlots)
  }

  /** `handle_midi_event`: a note-on sets `band[pitch][trktime]`; every
      other command is only reported. */
  function HandleMidiEvent(band: Band, tick: nat, command: seq<Byte>): (r: Result<Band, MidiError>)
    requires |command| >= 1
    ensures r.Err? <==> Unstorable(command)
    ensures r.Ok? ==> forall p, x :: 0 <= p < PitchSlots ==>
              (x in r.value[p] <==> x in band[p] || (x == tick && Strikes(command, p)))
  {
    if command[0] / 16 != 0x9 then Ok(band)
    else if |command| < 2 || command[1] >= PitchSlots then Err(IndexOutOfRange)
    else
      var p := command[1];
      var stored: Band := band[p := if tick in band[p] then band[p] else band[p] + [tick]];
      Ok(stored)
  }

  /** `handle_midi_event` for every decoded command in order; the first
      error ends the track. */
  function HandleEvents(band: Band, evs: seq<Ticked>): (r: Result<Band, MidiError>)
    requires forall i :: 0 <= i < |evs| ==> |evs[i].command| >= 1
    decreases |evs|
  {
    if |evs| == 0 then Ok(band)
    else
      var next :- HandleMidiEvent(band, evs[0].tick, evs[0].command);
      HandleEvents(next, evs[1..])
  }

  /** Some decoded command strikes `p` at tick `x`. */
  ghost predicate StruckAt(evs: seq<Ticked>, p: int, x: int) {
    exists k :: 0 <= k < |evs| && evs[k].tick == x && Strikes(evs[k].command, p)
  }

  /** Handling a track fails exactly on a note-on it cannot store, and
      otherwise adds exactly the struck (pitch, tick) pairs; striking a pair
      twice stores it once. */
  lemma {:induction false} HandleEventsCollects(band: Band, evs: seq<Ticked>)
    requires forall i :: 0 <= i < |evs| ==> |evs[i].command| >= 1
    ensures HandleEvents(band, evs).Err? <==> exists k :: 0 <= k < |evs| && Unstorable(evs[k].command)
    ensures HandleEvents(band, evs).Ok? ==> forall p, x :: 0 <= p < PitchSlots ==>
              (x in HandleEvents(band, evs).value[p] <==> x in band[p] || StruckAt(evs, p, x))
    decreases |evs|
  {
    if |evs| > 0 {
      var e := evs[0];
      var rest := evs[1..];
      var step := HandleMidiEvent(band, e.tick, e.command);
      if step.Ok? {
        HandleEventsCollects(step.value, rest);
        assert HandleEvents(band, evs) == HandleEvents(step.value, rest);
        forall k | 0 <= k < |rest|
          ensures rest[k] == evs[k + 1]
        {
        }
        if HandleEvents(band, evs).Ok? {
          var out := HandleEvents(band, evs).value;
          forall p, x | 0 <= p < PitchSlots
            ensures x in out[p] <==> x in band[p] || StruckAt(evs, p, x)
          {
            if StruckAt(evs, p, x) && !(x == e.tick && Strikes(e.command, p)) {
              var k :| 0 <= k < |evs| && evs[k].tick == x && Strikes(evs[k].command, p);
              assert k > 0;
              assert rest[k - 1] == evs[k];
            }
            if StruckAt(rest, p, x) {
              var k :| 0 <= k < |rest| && rest[k].tick == x && Strikes(rest[k].command, p);
              assert evs[k + 1] == rest[k];
            }
            if x == e.tick && Strikes(e.command, p) {
              assert evs[0] == e;
            }
          }
        }
        if exists k :: 0 <= k < |evs| && Unstorable(evs[k].command) {
          var k :| 0 <= k < |evs| && Unstorable(evs[k].command);
          assert k > 0;
          assert rest[k - 1] == evs[k];
        }
      } else {
        assert Unstorable(evs[0].command);
      }
    }
  }

  /** `handle_midi_ticked_events`: `trktime` restarts at 0, the commands
      are decoded in the midi.py dialect and handed on in order. */
  function HandleTrack(band: Band, data: seq<Byte>): (r: Result<Band, MidiError>)
    ensures var scan := DecodeTrack(data, Legacy);
            r.Ok? <==> scan.stop.None? && HandleEvents(band, scan.events).Ok?
    ensures r.Ok? ==> r.value == HandleEvents(band, DecodeTrack(data, Legacy).events).value
  {
    var scan := DecodeTrack(data, Legacy);
    var handled :- HandleEvents(band, scan.events);
    if scan.stop.Some? then Err(scan.stop.value) else Ok(handled)
  }

  /** `handle_chunk`: any six-byte `MThd` sets the time division, with
      neither a first-chunk nor a duplicate check; every `MTrk` advances the
      track counter, and only the selected tracks are decoded; other chunks
      are ignored. */
  function HandleChunk(st: Reader, tracks: set<nat>, tag: seq<Byte>, data: seq<Byte>): (r: Result<Reader, MidiError>)
    ensures tag == HeaderTag ==>
              r == (if |data| != 6 then Err(InvalidHeader) else Ok(st.(timediv := S16(data[4], data[5]))))
    ensures tag == TrackTag && st.curTrack !in tracks ==> r == Ok(st.(curTrack := st.curTrack + 1))
    ensures tag == TrackTag && st.curTrack in tracks ==>
              && (r.Ok? <==> HandleTrack(st.band, data).Ok?)
              && (r.Ok? ==> r.value == Reader(st.timediv, st.curTrack + 1, HandleTrack(st.band, data).value))
    ensures tag != HeaderTag && tag != TrackTag ==> r == Ok(st)
  {
    if tag == HeaderTag then
      if |data| != 6 then Err(InvalidHeader)
      else Ok(st.(timediv := S16(data[4], data[5])))
    else if tag == TrackTag then
      if st.curTrack in tracks then
        var band :- HandleTrack(st.band, data);
        Ok(Reader(st.timediv, st.curTrack + 1, band))
      else Ok(st.(curTrack := st.curTrack + 1))
    else Ok(st)
  }

  /** `read_midi`'s loop: a tag, a big-endian unsigned length and that many
      bytes per chunk, until no byte is left; any shorter remainder raises. */
  function ReadChunks(t: seq<Byte>, st: Reader, tracks: set<nat>): (r: Result<Reader, MidiError>)
    ensures 0 < |t| < 8 ==> r == Err(TruncatedFile)
    ensures |t| >= 8 && |t| < 8 + U32(t[4..8]) ==> r == Err(TruncatedFile)
    decreases |t|
  {
    if |t| == 0 then Ok(st)
    else if |t| < 8 then Err(TruncatedFile)
    else
      var length := U32(t[4..8]);
      if |t| < 8 + length then Err(TruncatedFile)
      else
        var afterChunk :- HandleChunk(st, tracks, t[..4], t[8..8 + length]);
        ReadChunks(t[8 + length..], afterChunk, tracks)
  }

  /** `read_midi` from the initial globals. */
  function ReadMidi(t: seq<Byte>, tracks: set<nat>): (r: Result<Reader, MidiError>)
    ensures r.Ok? ==> r.value.curTrack <= |t| / 8 && Sane(r.value)
  {
    ReadCounts(t, Initial, tracks);
    ReadChunksSane(t, Initial, tracks);
    ReadChunks(t, Initial, tracks)
  }

  /** Every stored tick is a tick count. */
  predicate TicksNatural(band: Band) {
    forall p, k :: 0 <= p < PitchSlots && 0 <= k < |band[p]| ==> band[p][k] >= 0
  }

  /** What every state the reader reaches satisfies: a signed 16-bit time
      division and tick counts in the band. */
  predicate Sane(st: Reader) {
    -0x8000 <= st.timediv < 0x8000 && TicksNatural(st.band)
  }

  lemma {:induction false} HandleTrackNatural(band: Band, data: seq<Byte>)
    requires TicksNatural(band) && HandleTrack(band, data).Ok?
    ensures TicksNatural(HandleTrack(band, data).value)
  {
    var evs := DecodeTrack(data, Legacy).events;
    HandleEventsCollects(band, evs);
    var out := HandleTrack(band, data).value;
    forall p, k | 0 <= p < PitchSlots && 0 <= k < |out[p]|
      ensures out[p][k] >= 0
    {
      var x := out[p][k];
      assert x in out[p];
      if StruckAt(evs, p, x) {
        var j :| 0 <= j < |evs| && evs[j].tick == x && Strikes(evs[j].command, p);
      } else {
        var i :| 0 <= i < |band[p]| && band[p][i] == x;
      }
    }
  }

  lemma {:induction false} ReadChunksSane(t: seq<Byte>, st: Reader, tracks: set<nat>)
    requires Sane(st)
    ensures ReadChunks(t, st, tracks).Ok? ==> Sane(ReadChunks(t, st, tracks).value)
    decreases |t|
  {
    if |t| >= 8 {
      var length := U32(t[4..8]);
      if |t| >= 8 + length {
        var tag, data := t[..4], t[8..8 + length];
        var handled := HandleChunk(st, tracks, tag, data);
        if handled.Ok? {
          if tag == TrackTag && st.curTrack in tracks {
            HandleTrackNatural(st.band, data);
          }
          ReadChunksSane(t[8 + length..], handled.value, tracks);
        }
      }
    }
  }

  /** Every chunk takes at least eight bytes, so no more tracks are counted
      than the file has eight-byte blocks. */
  lemma {:induction false} ReadCounts(t: seq<Byte>, st: Reader, tracks: set<nat>)
    ensures ReadChunks(t, st, tracks).Ok? ==> ReadChunks(t, st, tracks).value.curTrack <= st.curTrack + |t| / 8
    decreases |t|
  {
    if |t| >= 8 {
      var length := U32(t[4..8]);
      if |t| >= 8 + length {
        var handled := HandleChunk(st, tracks, t[..4], t[8..8 + length]);
        if handled.Ok? {
          ReadCounts(t[8 + length..], handled.value, tracks);
          assert handled.value.curTrack <= st.curTrack + 1;
        }
      }
    }
  }

  /** A chunk written by `Frame` is read back whole. */
  lemma {:induction false} ChunkFraming(tag: seq<Byte>, data: seq<Byte>, rest: seq<Byte>, st: Reader, tracks: set<nat>)
    requires |tag| == 4 && |data| < 0x8000_0000
    ensures ReadChunks(Frame(tag, data) + rest, st, tracks)
         == (var handled := HandleChunk(st, tracks, tag, data);
             if handled.Err? then Err(handled.error) else ReadChunks(rest, handled.value, tracks))
  {
    var t := Frame(tag, data) + rest;
    assert t[..4] == tag && t[4..8] == Frame(tag, data)[4..8];
    assert t[8..8 + |data|] == data;
    assert t[8 + |data|..] == rest;
  }

  /** midi.py is stricter than lamusica.py about what follows the last
      chunk: one to seven stray bytes raise here but end lamusica.py's
      loop quietly. */
  lemma {:induction false} StrayTailDiffers(t: seq<Byte>, st: Reader, tracks: set<nat>, imp: Importer.State)
    requires 0 < |t| < 8
    ensures ReadChunks(t, st, tracks) == Err(TruncatedFile)
    ensures Importer.ImportChunks(t, imp) == Ok(imp)
  {
  }
}
