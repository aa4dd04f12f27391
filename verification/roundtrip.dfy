/** Reading back what the writer produces: the importer of lamusica.py
    recovers the time division, the program and one note per note-on from
    a file written by `output_midi`. */
module RoundTrip {
  import opened Wrappers
  import opened Bytes
  import Vlq
  import opened TrackParser
  import opened Notes
  import opened Importer
  import opened Encoder

  /** The decoded commands the events should come back as: one note
      command per event, then the end of track at the last event's tick. */
  function Expected(last: nat, events: seq<NoteEvent>): (r: seq<Ticked>)
    requires Writable(last, events)
    ensures |r| == |events| + 1
    ensures forall k :: 0 <= k < |events| ==>
              r[k].tick == events[k].tick && r[k].command == [Status(events[k]), events[k].pitch, 0x7F]
    ensures r[|events|].command == EndCommand && last <= r[|events|].tick
    ensures forall k :: 0 <= k < |events| ==> events[k].tick <= r[|events|].tick
    decreases |events|
  {
    if |events| == 0 then [Ticked(0, last, EndCommand)]
    else
      var e := events[0];
      [Ticked(e.tick - last, e.tick, [Status(e), e.pitch, 0x7F])] + Expected(e.tick, events[1..])
  }

  /** The end-of-track meta event as the decoder hands it on. */
  const EndCommand: seq<Byte> := [0xFF, 0x2F, 0x00]

  /** Ticks that survive the 28-bit delta-time encoding. */
  predicate InRange(events: seq<NoteEvent>) {
    forall k :: 0 <= k < |events| ==> events[k].tick < Vlq.Limit
  }

  lemma {:induction false} EndOfTrackScan(running: Option<Byte>, tick: nat)
    requires running.Some? ==> running.value >= 0x80
    ensures Scan(EndOfTrack, running, tick, Current) == TrackScan([Ticked(0, tick, EndCommand)], None)
  {
    var u: seq<Byte> := [0xFF, 0x2F, 0x00];
    assert Vlq.Read(EndOfTrack) == Some((0, u)) by {
      assert EndOfTrack[1..] == u;
    }
    assert Vlq.Read([0x00]) == Some((0, [])) by {
      assert [0x00][1..] == [];
    }
    assert u[1..] == [0x2F, 0x00] && u[1..][1..] == [0x00];
    assert LengthPrefixed(0, [0xFF, 0x2F], [0x00]) == Ok(Parsed(0, EndCommand, Some(0xFF), [])) by {
      assert [0x00][..1] == [0x00] && [0x00][1..] == [];
      assert [0xFF, 0x2F] + [0x00] == EndCommand;
    }
    assert ParseBody(0, 0xFF, [0x2F, 0x00], Current) == LengthPrefixed(0, [0xFF, 0x2F], [0x00]);
    assert ParseEvent(EndOfTrack, running, Current) == Ok(Parsed(0, EndCommand, Some(0xFF), []));
  }

  /** A channel event with two data bytes after its delta time is read
      back as exactly that command. */
  lemma {:induction false} ChannelEvent(t: seq<Byte>, dt: nat, cmd: seq<Byte>, more: seq<Byte>, running: Option<Byte>)
    requires |cmd| == 3 && cmd[0] in {0x80, 0x90}
    requires running.Some? ==> running.value >= 0x80
    requires Vlq.Read(t) == Some((dt, cmd + more))
    ensures ParseEvent(t, running, Current) == Ok(Parsed(dt, cmd, Some(cmd[0]), more))
  {
    var body := cmd + more;
    assert body[0] == cmd[0] && body[1..] == cmd[1..] + more;
    assert (cmd[1..] + more)[..2] == cmd[1..] && (cmd[1..] + more)[2..] == more;
    assert [cmd[0]] + cmd[1..] == cmd;
    assert DataBytes(cmd[0]) == Some(2);
  }

  lemma {:induction false} ScanSameTick(t: seq<Byte>, running: Option<Byte>, x: nat, y: nat)
    requires running.Some? ==> running.value >= 0x80
    requires x == y
    ensures Scan(t, running, x, Current) == Scan(t, running, y, Current)
  {
  }

  /** A channel event in front of bytes that scan to `tailScan` adds
      exactly its command, at its tick, to the front of the scan. */
  lemma {:induction false} ScanChannel(t: seq<Byte>, dt: nat, cmd: seq<Byte>, more: seq<Byte>, running: Option<Byte>,
                    tick: nat, next: nat, tailScan: TrackScan)
    requires |cmd| == 3 && cmd[0] in {0x80, 0x90}
    requires running.Some? ==> running.value >= 0x80
    requires dt < Vlq.Limit && t == Vlq.Encode(dt) + (cmd + more)
    requires next == tick + dt && Scan(more, Some(cmd[0]), next, Current) == tailScan
    ensures Scan(t, running, tick, Current) == TrackScan([Ticked(dt, next, cmd)] + tailScan.events, tailScan.stop)
  {
    ReadDelta(t, dt, cmd + more);
    ChannelEvent(t, dt, cmd, more, running);
    ScanStep(t, running, tick, Current, Parsed(dt, cmd, Some(cmd[0]), more));
    ScanSameTick(more, Some(cmd[0]), tick + dt, next);
  }

  /** The first event's bytes, then the bytes of the others. */
  lemma {:induction false} EventBytesSplit(last: nat, events: seq<NoteEvent>)
    requires |events| > 0 && Writable(last, events)
    ensures EventBytes(last, events) + EndOfTrack
         == Vlq.Encode(events[0].tick - last)
            + ([Status(events[0]), events[0].pitch, 0x7F] + (EventBytes(events[0].tick, events[1..]) + EndOfTrack))
  {
  }

  /** A delta time below 2^28 in front of `body` reads back as itself. */
  lemma {:induction false} ReadDelta(t: seq<Byte>, dt: nat, body: seq<Byte>)
    requires dt < Vlq.Limit && t == Vlq.Encode(dt) + body
    ensures Vlq.Read(t) == Some((dt, body))
  {
    Vlq.RoundTrip(dt, body);
  }

  /** Dropping the first event keeps the rest in range. */
  lemma {:induction false} InRangeTail(events: seq<NoteEvent>)
    requires |events| > 0 && InRange(events)
    ensures InRange(events[1..])
  {
    forall k | 0 <= k < |events| - 1
      ensures events[1..][k].tick < Vlq.Limit
    {
      assert events[1..][k] == events[k + 1];
    }
  }

  /** No events: only the end of track is decoded. */
  lemma {:induction false} ScanNoEvents(last: nat, running: Option<Byte>)
    requires running.Some? ==> running.value >= 0x80
    ensures Scan(EventBytes(last, []) + EndOfTrack, running, last, Current) == TrackScan(Expected(last, []), None)
  {
    assert EventBytes(last, []) + EndOfTrack == EndOfTrack;
    EndOfTrackScan(running, last);
  }

  /** One more event in front adds its command in front of the decoding
      of the others. */
  lemma {:induction false} ScanMoreEvents(last: nat, events: seq<NoteEvent>, running: Option<Byte>)
    requires |events| > 0 && Writable(last, events) && InRange(events)
    requires running.Some? ==> running.value >= 0x80
    requires Scan(EventBytes(events[0].tick, events[1..]) + EndOfTrack, Some(Status(events[0])), events[0].tick, Current)
          == TrackScan(Expected(events[0].tick, events[1..]), None)
    ensures Scan(EventBytes(last, events) + EndOfTrack, running, last, Current) == TrackScan(Expected(last, events), None)
  {
    var e := events[0];
    var cmd := [Status(e), e.pitch, 0x7F];
    var more := EventBytes(e.tick, events[1..]) + EndOfTrack;
    EventBytesSplit(last, events);
    ScanChannel(EventBytes(last, events) + EndOfTrack, e.tick - last, cmd, more, running, last, e.tick,
                TrackScan(Expected(e.tick, events[1..]), None));
    ExpectedSplit(last, events);
    SameScan(EventBytes(last, events) + EndOfTrack, running, last,
             [Ticked(e.tick - last, e.tick, cmd)] + Expected(e.tick, events[1..]), Expected(last, events));
  }

  /** `Expected` after the first event. */
  lemma {:induction false} ExpectedSplit(last: nat, events: seq<NoteEvent>)
    requires |events| > 0 && Writable(last, events)
    ensures [Ticked(events[0].tick - last, events[0].tick, [Status(events[0]), events[0].pitch, 0x7F])]
            + Expected(events[0].tick, events[1..]) == Expected(last, events)
  {
  }

  lemma {:induction false} SameScan(t: seq<Byte>, running: Option<Byte>, tick: nat, a: seq<Ticked>, b: seq<Ticked>)
    requires running.Some? ==> running.value >= 0x80
    requires Scan(t, running, tick, Current) == TrackScan(a, None) && a == b
    ensures Scan(t, running, tick, Current) == TrackScan(b, None)
  {
  }

  /** The event loop's bytes, followed by the end of track, decode to
      exactly the expected commands. */
  lemma {:induction false} ScanEventBytes(last: nat, events: seq<NoteEvent>, running: Option<Byte>)
    requires Writable(last, events) && InRange(events)
    requires running.Some? ==> running.value >= 0x80
    ensures Scan(EventBytes(last, events) + EndOfTrack, running, last, Current) == TrackScan(Expected(last, events), None)
    decreases |events|
  {
    if |events| == 0 {
      ScanNoEvents(last, running);
    } else {
      InRangeTail(events);
      ScanEventBytes(events[0].tick, events[1..], Some(Status(events[0])));
      ScanMoreEvents(last, events, running);
    }
  }

  /** The note-ons, as the importer records them (channel 0, track 0). */
  function OnNotes(events: seq<NoteEvent>): (r: seq<Note>)
    ensures |r| <= |events|
    ensures forall n :: n in r ==> exists k :: 0 <= k < |events| && events[k].on && n == Note(events[k].pitch, events[k].tick, 0, 0, {})
    ensures forall k :: 0 <= k < |events| && events[k].on ==> Note(events[k].pitch, events[k].tick, 0, 0, {}) in r
    decreases |events|
  {
    if |events| == 0 then []
    else
      var rest := OnNotes(events[1..]);
      assert forall k :: 1 <= k < |events| ==> events[k] == events[1..][k - 1];
      var e := events[0];
      (if e.on then [Note(e.pitch, e.tick, 0, 0, {})] else []) + rest
  }

  /** The notes the importer adds for the expected commands: one per
      note-on, none at all under the percussion program. */
  function Collected(st: State, events: seq<NoteEvent>): seq<Note> {
    if st.curProgram == Percussion then [] else OnNotes(events)
  }

  /** The end of track changes nothing. */
  lemma {:induction false} ImportNoEvents(st: State, last: nat)
    ensures ImportEvents(st, 0, Expected(last, [])) == Ok(st.(notes := st.notes + Collected(st, [])))
  {
    var evs := Expected(last, []);
    assert evs == [Ticked(0, last, EndCommand)] && evs[1..] == [];
    assert ImportEvent(st, last, 0, EndCommand) == Ok(st);
    assert st.notes + Collected(st, []) == st.notes;
  }

  /** One event adds its note when it is a note-on (and the program is not
      percussion), then the rest are imported. */
  lemma {:induction false} ImportMoreEvents(st: State, last: nat, events: seq<NoteEvent>, st': State)
    requires |events| > 0 && Writable(last, events)
    requires st' == st.(notes := st.notes + (if events[0].on && st.curProgram != Percussion
                                             then [Note(events[0].pitch, events[0].tick, 0, 0, {})] else []))
    ensures ImportEvents(st, 0, Expected(last, events)) == ImportEvents(st', 0, Expected(events[0].tick, events[1..]))
  {
    var e := events[0];
    var cmd := [Status(e), e.pitch, 0x7F];
    var evs := Expected(last, events);
    assert evs[0] == Ticked(e.tick - last, e.tick, cmd) && evs[1..] == Expected(e.tick, events[1..]);
    if e.on && st.curProgram != Percussion {
      assert cmd[0] / 16 == 9 && cmd[0] % 16 == 0 && cmd[1] == e.pitch;
    } else {
      assert st.notes + [] == st.notes;
    }
    assert ImportEvent(st, e.tick, 0, cmd) == Ok(st');
  }

  /** The notes collected in front of the rest. */
  lemma {:induction false} CollectedMore(st: State, events: seq<NoteEvent>, st': State)
    requires |events| > 0
    requires st' == st.(notes := st.notes + (if events[0].on && st.curProgram != Percussion
                                             then [Note(events[0].pitch, events[0].tick, 0, 0, {})] else []))
    ensures st.notes + Collected(st, events) == st'.notes + Collected(st', events[1..])
    ensures st.(notes := st.notes + Collected(st, events)) == st'.(notes := st'.notes + Collected(st', events[1..]))
  {
  }

  /** Importing the expected commands of one track adds exactly the
      note-ons (note-offs and the end of track change nothing). */
  lemma {:induction false} ImportExpected(st: State, last: nat, events: seq<NoteEvent>)
    requires Writable(last, events)
    ensures ImportEvents(st, 0, Expected(last, events)) == Ok(st.(notes := st.notes + Collected(st, events)))
    decreases |events|
  {
    if |events| == 0 {
      ImportNoEvents(st, last);
    } else {
      var e := events[0];
      var st' := st.(notes := st.notes + (if e.on && st.curProgram != Percussion then [Note(e.pitch, e.tick, 0, 0, {})] else []));
      ImportMoreEvents(st, last, events, st');
      ImportExpected(st', e.tick, events[1..]);
      CollectedMore(st, events, st');
    }
  }

  /** The commands the payload decodes to: the program change first when
      there is one. */
  function PayloadCommands(program: Option<Byte>, events: seq<NoteEvent>): seq<Ticked>
    requires Writable(0, events)
  {
    (if program.Some? then [Ticked(0, 0, [0xC0, program.value])] else []) + Expected(0, events)
  }

  /** A program change at delta 0 parses as one event, whatever follows. */
  lemma {:induction false} ParseProgram(p: Byte, more: seq<Byte>)
    ensures ParseEvent([0x00, 0xC0, p] + more, None, Current) == Ok(Parsed(0, [0xC0, p], Some(0xC0), more))
  {
    var t := [0x00, 0xC0, p] + more;
    assert t == Vlq.Encode(0) + ([0xC0, p] + more);
    ReadDelta(t, 0, [0xC0, p] + more);
    var body := [0xC0, p] + more;
    assert body[0] == 0xC0 && body[1..] == [p] + more;
    assert ([p] + more)[..1] == [p] && ([p] + more)[1..] == more;
    assert [0xC0] + [p] == [0xC0, p];
    assert DataBytes(0xC0) == Some(1);
  }

  /** The program change at delta 0 in front of the events. */
  lemma {:induction false} ScanProgram(p: Byte, events: seq<NoteEvent>)
    requires Writable(0, events) && InRange(events)
    ensures Scan([0x00, 0xC0, p] + (EventBytes(0, events) + EndOfTrack), None, 0, Current)
         == TrackScan([Ticked(0, 0, [0xC0, p])] + Expected(0, events), None)
  {
    var more := EventBytes(0, events) + EndOfTrack;
    var t := [0x00, 0xC0, p] + more;
    ParseProgram(p, more);
    ScanStep(t, None, 0, Current, Parsed(0, [0xC0, p], Some(0xC0), more));
    ScanEventBytes(0, events, Some(0xC0));
  }

  /** The whole track payload decodes to the expected commands. */
  lemma {:induction false} DecodePayload(program: Option<Byte>, events: seq<NoteEvent>)
    requires Writable(0, events) && InRange(events)
    ensures DecodeTrack(TrackPayload(program, events), Current) == TrackScan(PayloadCommands(program, events), None)
  {
    var more := EventBytes(0, events) + EndOfTrack;
    if program.Some? {
      assert TrackPayload(program, events) == [0x00, 0xC0, program.value] + more;
      ScanProgram(program.value, events);
    } else {
      assert TrackPayload(program, events) == more;
      ScanEventBytes(0, events, None);
      assert PayloadCommands(program, events) == Expected(0, events);
    }
  }

  /** The importer state after the header of a file written with time
      division `timediv`. */
  function AfterHeader(timediv: int): State {
    Initial.(timediv := timediv)
  }

  /** The program the importer ends with: the program change when there
      is one, else the initial -1. */
  function FinalProgram(program: Option<Byte>): int {
    if program.Some? then program.value else -1
  }

  /** Importing the payload's commands as track 0. */
  lemma {:induction false} ImportPayload(timediv: int, program: Option<Byte>, events: seq<NoteEvent>)
    requires Writable(0, events)
    ensures ImportEvents(AfterHeader(timediv), 0, PayloadCommands(program, events))
         == Ok(State(timediv, 0, FinalProgram(program), Collected(State(timediv, 0, FinalProgram(program), []), events)))
  {
    var st := AfterHeader(timediv);
    var st' := st.(curProgram := FinalProgram(program));
    if program.Some? {
      var cmds := PayloadCommands(program, events);
      assert cmds[0] == Ticked(0, 0, [0xC0, program.value]) && cmds[1..] == Expected(0, events);
      assert ImportEvent(st, 0, 0, [0xC0, program.value]) == Ok(st');
    } else {
      assert PayloadCommands(program, events) == Expected(0, events);
    }
    ImportExpected(st', 0, events);
    assert st'.notes + Collected(st', events) == Collected(st', events);
  }

  /** Reading back a file written by `output_midi`: the importer recovers
      the time division, one track, the program and one note per
      note-on, in tick order (none under the percussion program). The
      time division must be non-zero, since the importer takes a zero
      division as "no header read yet". */
  lemma {:induction false} ReadBack(timediv: int, program: Option<Byte>, events: seq<NoteEvent>)
    requires -0x8000 <= timediv < 0x8000 && timediv != 0
    requires Writable(0, events) && InRange(events)
    requires EncodeFile(timediv, program, events).Some?
    ensures ImportFile(EncodeFile(timediv, program, events).value)
         == Ok(State(timediv, 1, FinalProgram(program), Collected(State(timediv, 0, FinalProgram(program), []), events)))
  {
    var header, payload := HeaderData(timediv), TrackPayload(program, events);
    var track := Frame(TrackTag, payload);
    ChunkFraming(HeaderTag, header, track, Initial);
    assert ImportChunk(Initial, HeaderTag, header) == Ok(AfterHeader(timediv));
    ChunkFraming(TrackTag, payload, [], AfterHeader(timediv));
    assert track + [] == track;
    DecodePayload(program, events);
    ImportPayload(timediv, program, events);
  }
}
