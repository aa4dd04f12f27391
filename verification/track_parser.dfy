/** Decoding of one `MTrk` payload into delta-timed commands: the
    `while t:` loop of `import_ticked_events` (lamusica.py) and of
    `handle_midi_ticked_events` (midi.py). Both read a variable-length delta
    time, honour running status (MIDI 1.0 Detailed Specification, "Running
    Status") and take a fixed number of data bytes per status nibble; they
    differ only in how meta and system-exclusive events are framed. */
module TrackParser {
  import opened Wrappers
  import opened Bytes
  import Vlq

  /** What the source raises while reading a file. */
  datatype MidiError =
    | TruncatedFile           // "Not enough bytes in MIDI file"
    | FirstChunkNotHeader     // "first chunk is not MThd"
    | MultipleHeaders         // "multiple MThd chunks"
    | InvalidHeader           // "invalid MThd chunk"
    | UnknownEvent(shown: Byte) // "unknown MIDI event: %d", formatted from the byte after the status
    | IndexOutOfRange         // an IndexError: the code indexes past the data it has
    | MissingStatus           // a TypeError: a data byte arrives before any status byte

  /** lamusica.py reads length-prefixed meta and sysex events; midi.py gives
      meta events a single length byte and rejects sysex. */
  datatype Dialect = Current | Legacy

  /** Number of data bytes of a fixed-size event; None for the
      length-prefixed and unknown statuses. */
  function DataBytes(status: Byte): (n: Option<nat>)
    requires status >= 0x80
    ensures n == Some(2) <==> status / 16 in {0x8, 0x9, 0xA, 0xB, 0xE}
    ensures n == Some(1) <==> status / 16 in {0xC, 0xD}
    ensures n == Some(0) <==> status in {0xF8, 0xFA, 0xFB, 0xFC}
    ensures n.None? <==> status / 16 == 0xF && status !in {0xF8, 0xFA, 0xFB, 0xFC}
  {
    if status / 16 in {0x8, 0x9, 0xA, 0xB, 0xE} then Some(2)
    else if status / 16 in {0xC, 0xD} then Some(1)
    else if status in {0xF8, 0xFA, 0xFB, 0xFC} then Some(0)
    else None
  }

  /** One decoded event: its delta time, the command bytes handed to the
      event handler (status first), the running status afterwards and the
      undecoded remainder of the track. */
  datatype Parsed = Parsed(delta: nat, command: seq<Byte>, running: Option<Byte>, rest: seq<Byte>)

  function Min(a: nat, b: nat): nat {
    if a <= b then a else b
  }

  /** The bytes after a status byte. The command is the status followed by
      exactly the bytes consumed; slicing past the end of the track yields a
      shorter command, as Python slicing does. */
  function ParseBody(delta: nat, status: Byte, t: seq<Byte>, dialect: Dialect): (r: Result<Parsed, MidiError>)
    requires status >= 0x80
    ensures r.Ok? ==> && |r.value.command| >= 1 && r.value.command[0] == status
                      && |r.value.command| + |r.value.rest| == 1 + |t|
                      && r.value.running == Some(status) && r.value.delta == delta
    ensures DataBytes(status).Some? ==> r.Ok? && |r.value.command| == 1 + Min(DataBytes(status).value, |t|)
  {
    match DataBytes(status)
    case Some(n) =>
      var k := Min(n, |t|);
      assert [status] + t == [status] + t[..k] + t[k..];
      Ok(Parsed(delta, [status] + t[..k], Some(status), t[k..]))
    case None =>
      if status == 0xFF && dialect == Current then
        if |t| == 0 then Err(IndexOutOfRange)
        else
          assert [status] + t == [status, t[0]] + t[1..];
          LengthPrefixed(delta, [status, t[0]], t[1..])
      else if status in {0xF0, 0xF7} && dialect == Current then
        LengthPrefixed(delta, [status], t)
      else if status == 0xFF then
        if |t| < 2 then Err(IndexOutOfRange)
        else
          var k := Min(2 + t[1] as int, |t|);
          assert [status] + t == [status] + t[..k] + t[k..];
          Ok(Parsed(delta, [status] + t[..k], Some(status), t[k..]))
      else if |t| == 0 then Err(IndexOutOfRange)
      else Err(UnknownEvent(t[0]))
  }

  /** Meta events (lamusica.py) take a type byte, a variable-length length
      and that many bytes; sysex events take the length and the bytes;
      midi.py takes a type byte, one length byte and the bytes, and has no
      sysex; every other status without a fixed size raises. */
  lemma {:induction false} BodyFraming(delta: nat, status: Byte, t: seq<Byte>, dialect: Dialect)
    requires status >= 0x80 && DataBytes(status).None?
    ensures var r := ParseBody(delta, status, t, dialect);
      && (status == 0xFF && dialect == Current ==>
            && (r.Ok? <==> |t| > 0 && Vlq.Read(t[1..]).Some?)
            && (r.Ok? && |r.value.rest| > 0 ==>
                  var (l, u) := Vlq.Read(t[1..]).value;
                  |r.value.command| == 2 + (|t| - 1 - |u|) + l))
      && (status in {0xF0, 0xF7} && dialect == Current ==>
            && (r.Ok? <==> Vlq.Read(t).Some?)
            && (r.Ok? && |r.value.rest| > 0 ==>
                  var (l, u) := Vlq.Read(t).value;
                  |r.value.command| == 1 + (|t| - |u|) + l))
      && (status == 0xFF && dialect == Legacy ==>
            && (r.Ok? <==> |t| >= 2)
            && (r.Ok? ==> |r.value.command| == 1 + Min(2 + t[1] as int, |t|)))
      && (status != 0xFF && !(status in {0xF0, 0xF7} && dialect == Current) ==>
            r == Err(if |t| == 0 then IndexOutOfRange else UnknownEvent(t[0])))
  {
  }

  /** A variable-length length `l` followed by `l` bytes (fewer when the
      track ends first); `head` is what the command holds already. */
  function LengthPrefixed(delta: nat, head: seq<Byte>, t: seq<Byte>): (r: Result<Parsed, MidiError>)
    requires |head| >= 1 && head[0] >= 0x80
    ensures r.Ok? <==> Vlq.Read(t).Some?
    ensures r.Ok? ==> && |r.value.command| >= |head| && r.value.command[0] == head[0]
                      && |r.value.command| + |r.value.rest| == |head| + |t|
                      && r.value.running == Some(head[0]) && r.value.delta == delta
    ensures r.Ok? && |r.value.rest| > 0 ==>
              |r.value.command| == |head| + (|t| - |Vlq.Read(t).value.1|) + Vlq.Read(t).value.0
  {
    match Vlq.Read(t)
    case None => Err(IndexOutOfRange)
    case Some((l, u)) =>
      var cut := |t| - |u| + Min(l, |u|);
      Ok(Parsed(delta, head + t[..cut], Some(head[0]), t[cut..]))
  }

  /** A length-prefixed event is cut out of the track unchanged: the
      command starts with `head` and the remainder follows it. */
  lemma {:induction false} LengthPrefixedPieces(delta: nat, head: seq<Byte>, t: seq<Byte>)
    requires |head| >= 1 && head[0] >= 0x80
    requires LengthPrefixed(delta, head, t).Ok?
    ensures var p := LengthPrefixed(delta, head, t).value;
            p.command[..|head|] == head && p.command + p.rest == head + t
  {
    var u := Vlq.Read(t).value.1;
    var cut := |t| - |u| + Min(Vlq.Read(t).value.0, |u|);
    assert (head + t[..cut])[..|head|] == head;
    assert head + t[..cut] + t[cut..] == head + t;
  }

  /** Every event is cut out of the track unchanged: its command is the
      status byte followed by the bytes consumed. */
  lemma {:induction false} BodyPieces(delta: nat, status: Byte, t: seq<Byte>, dialect: Dialect)
    requires status >= 0x80
    requires ParseBody(delta, status, t, dialect).Ok?
    ensures var p := ParseBody(delta, status, t, dialect).value;
            p.command + p.rest == [status] + t
  {
    if DataBytes(status).Some? {
      var k := Min(DataBytes(status).value, |t|);
      assert [status] + t == [status] + t[..k] + t[k..];
    } else if status == 0xFF && dialect == Current {
      LengthPrefixedPieces(delta, [status, t[0]], t[1..]);
      assert [status] + t == [status, t[0]] + t[1..];
    } else if status in {0xF0, 0xF7} && dialect == Current {
      LengthPrefixedPieces(delta, [status], t);
    } else {
      var k := Min(2 + t[1] as int, |t|);
      assert [status] + t == [status] + t[..k] + t[k..];
    }
  }

  /** One event: a delta time, then either a status byte or, when the byte
      has no high bit, the running status of the previous event. */
  function ParseEvent(t: seq<Byte>, running: Option<Byte>, dialect: Dialect): (r: Result<Parsed, MidiError>)
    requires running.Some? ==> running.value >= 0x80
    ensures Vlq.Read(t).None? ==> r == Err(IndexOutOfRange)
    ensures r.Ok? ==> && |r.value.command| >= 1 && r.value.command[0] >= 0x80
                      && r.value.running == Some(r.value.command[0])
                      && |r.value.rest| < |t|
    ensures r.Ok? ==> Vlq.Read(t).Some? && r.value.delta == Vlq.Read(t).value.0
    ensures Vlq.Read(t).Some? ==>
              var u := Vlq.Read(t).value.1;
              |u| > 0 && u[0] < 0x80 && running.None? ==> r == Err(MissingStatus)
  {
    var rd := Vlq.Read(t);
    if rd.None? then Err(IndexOutOfRange)
    else
      var delta, u := rd.value.0, rd.value.1;
      if |u| == 0 then Err(IndexOutOfRange)
      else if u[0] >= 0x80 then
        ParseBody(delta, u[0], u[1..], dialect)
      else if running.None? then Err(MissingStatus)
      else ParseBody(delta, running.value, u, dialect)
  }

  /** After the delta time, an event consumes exactly its command bytes:
      all of them when the status byte is explicit, all but the status when
      the running status is reused. */
  lemma {:induction false} EventFraming(t: seq<Byte>, running: Option<Byte>, dialect: Dialect)
    requires running.Some? ==> running.value >= 0x80
    requires ParseEvent(t, running, dialect).Ok?
    ensures var p := ParseEvent(t, running, dialect).value;
            var u := Vlq.Read(t).value.1;
            && |u| > 0
            && (if u[0] >= 0x80 then u == p.command + p.rest
                else running == Some(p.command[0]) && u == p.command[1..] + p.rest)
  {
    var rd := Vlq.Read(t).value;
    var u := rd.1;
    if u[0] < 0x80 {
      var p := ParseEvent(t, running, dialect).value;
      BodyPieces(rd.0, running.value, u, dialect);
      assert p.command + p.rest == [running.value] + u;
      assert (p.command + p.rest)[1..] == p.command[1..] + p.rest;
    } else {
      BodyPieces(rd.0, u[0], u[1..], dialect);
    }
  }

  /** A decoded command with its delta and the absolute tick it happens at. */
  datatype Ticked = Ticked(delta: nat, tick: nat, command: seq<Byte>)

  /** The commands decoded before the loop stops, and the error that stopped
      it (None when the track was consumed completely). */
  datatype TrackScan = TrackScan(events: seq<Ticked>, stop: Option<MidiError>)

  /** Each event happens its delta time after the previous one. */
  predicate Accumulated(evs: seq<Ticked>) {
    forall i, j :: 0 <= i < |evs| && j == i + 1 && j < |evs| ==> evs[j].tick == evs[i].tick + evs[j].delta
  }

  /** Decodes events until the track is used up or a parse error occurs;
      `tick` accumulates the delta times. */
  function Scan(t: seq<Byte>, running: Option<Byte>, tick: nat, dialect: Dialect): (r: TrackScan)
    requires running.Some? ==> running.value >= 0x80
    ensures |r.events| > 0 ==> r.events[0].tick == tick + r.events[0].delta
    ensures Accumulated(r.events)
    ensures forall i :: 0 <= i < |r.events| ==> |r.events[i].command| >= 1 && r.events[i].command[0] >= 0x80
    ensures |t| == 0 ==> r == TrackScan([], None)
    decreases |t|, 1
  {
    if |t| == 0 then TrackScan([], None)
    else ScanFrom(ParseEvent(t, running, dialect), t, tick, dialect)
  }

  /** The scan loop after the first event of `t` has been parsed. */
  function ScanFrom(parsed: Result<Parsed, MidiError>, t: seq<Byte>, tick: nat, dialect: Dialect): (r: TrackScan)
    requires parsed.Ok? ==> && |parsed.value.rest| < |t| && |parsed.value.command| >= 1
                            && parsed.value.command[0] >= 0x80 && parsed.value.running == Some(parsed.value.command[0])
    ensures parsed.Ok? ==> |r.events| > 0 && r.events[0] == Ticked(parsed.value.delta, tick + parsed.value.delta, parsed.value.command)
    ensures |r.events| > 0 ==> r.events[0].tick == tick + r.events[0].delta
    ensures Accumulated(r.events)
    ensures forall i :: 0 <= i < |r.events| ==> |r.events[i].command| >= 1 && r.events[i].command[0] >= 0x80
    decreases |t|, 0
  {
    match parsed
    case Err(e) => TrackScan([], Some(e))
    case Ok(p) =>
      var next := tick + p.delta;
      var more := Scan(p.rest, p.running, next, dialect);
      TrackScan([Ticked(p.delta, next, p.command)] + more.events, more.stop)
  }

  /** One turn of the scan loop: the first event, then the scan of the
      rest from its tick on. */
  lemma {:induction false} ScanStep(t: seq<Byte>, running: Option<Byte>, tick: nat, dialect: Dialect, p: Parsed)
    requires running.Some? ==> running.value >= 0x80
    requires |t| > 0 && ParseEvent(t, running, dialect) == Ok(p)
    ensures Scan(t, running, tick, dialect)
         == TrackScan([Ticked(p.delta, tick + p.delta, p.command)] + Scan(p.rest, p.running, tick + p.delta, dialect).events,
                      Scan(p.rest, p.running, tick + p.delta, dialect).stop)
  {
    assert Scan(t, running, tick, dialect) == ScanFrom(Ok(p), t, tick, dialect);
  }

  /** Ticks never decrease along a decoded track. */
  predicate TicksAscend(evs: seq<Ticked>) {
    forall i, j :: 0 <= i < j < |evs| ==> evs[i].tick <= evs[j].tick
  }

  lemma {:induction false} AccumulatedTicksAscend(evs: seq<Ticked>)
    requires Accumulated(evs)
    ensures TicksAscend(evs)
    decreases |evs|
  {
    if |evs| > 1 {
      var init := evs[..|evs| - 1];
      assert Accumulated(init) by {
        forall i, j | 0 <= i < |init| && j == i + 1 && j < |init|
          ensures init[j].tick == init[i].tick + init[j].delta
        {
          assert init[i] == evs[i] && init[j] == evs[j];
        }
      }
      AccumulatedTicksAscend(init);
      var last := |evs| - 1;
      assert evs[last].tick >= evs[last - 1].tick by {
        assert evs[last].tick == evs[last - 1].tick + evs[last].delta;
      }
      forall i, j | 0 <= i < j < |evs| ensures evs[i].tick <= evs[j].tick {
        if j < last {
          assert init[i] == evs[i] && init[j] == evs[j];
        } else if i < last - 1 {
          assert init[i] == evs[i] && init[last - 1] == evs[last - 1];
        }
      }
    }
  }

  /** A whole track: running status starts empty and the tick at 0, so
      every tick is the sum of the delta times up to its event. */
  function DecodeTrack(t: seq<Byte>, dialect: Dialect): (r: TrackScan)
    ensures |r.events| > 0 ==> r.events[0].tick == r.events[0].delta
    ensures TicksAscend(r.events)
  {
    AccumulatedTicksAscend(Scan(t, None, 0, dialect).events);
    Scan(t, None, 0, dialect)
  }
}
