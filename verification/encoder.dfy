/** `output_midi` of lamusica.py and of midi.py: one format-0 Standard MIDI
    File holding a note-on for every hole and a note-off a fixed delay
    later. */
module Encoder {
  import opened Wrappers
  import opened Bytes
  import Vlq
  import opened Sorting

  /** `(t, pitch, on)`: a note-on when `on`, else a note-off. */
  datatype NoteEvent = NoteEvent(tick: nat, pitch: int, on: bool)

  /** Python's tuple order on `(t, pitch, on)`, `on` being 0 or 1: at the
      same tick and pitch the note-off comes first. */
  predicate EventLe(a: NoteEvent, b: NoteEvent) {
    || a.tick < b.tick
    || (a.tick == b.tick && (a.pitch < b.pitch || (a.pitch == b.pitch && (!a.on || b.on))))
  }

  lemma {:induction false} EventLeTotal()
    ensures TotalPreorder(EventLe)
  {
  }

  /** Ticks of a band are tick counts, and the delay is not negative. */
  predicate Schedulable(bands: seq<seq<int>>, delay: int) {
    && delay >= 0
    && forall i, k :: 0 <= i < |bands| && 0 <= k < |bands[i]| ==> bands[i][k] >= 0
  }

  /** The events of one tooth: a note-on per tick, then a note-off per tick. */
  function ToothEvents(pitch: int, ticks: seq<int>, delay: int): (r: seq<NoteEvent>)
    requires delay >= 0 && forall k :: 0 <= k < |ticks| ==> ticks[k] >= 0
    ensures |r| == 2 * |ticks|
    ensures forall k :: 0 <= k < |ticks| ==>
              r[k] == NoteEvent(ticks[k], pitch, true) && r[|ticks| + k] == NoteEvent(ticks[k] + delay, pitch, false)
  {
    seq(|ticks|, k requires 0 <= k < |ticks| => NoteEvent(ticks[k], pitch, true))
      + seq(|ticks|, k requires 0 <= k < |ticks| => NoteEvent(ticks[k] + delay, pitch, false))
  }

  /** Total number of holes. */
  function Holes(bands: seq<seq<int>>): nat
    decreases |bands|
  {
    if |bands| == 0 then 0 else Holes(bands[..|bands| - 1]) + |bands[|bands| - 1]|
  }

  /** The unsorted event list: tooth after tooth. */
  function AllEvents(pitches: seq<int>, bands: seq<seq<int>>, delay: int): (r: seq<NoteEvent>)
    requires |pitches| == |bands| && Schedulable(bands, delay)
    ensures |r| == 2 * Holes(bands)
    decreases |bands|
  {
    if |bands| == 0 then []
    else
      var n := |bands| - 1;
      assert Schedulable(bands[..n], delay) by {
        assert forall i :: 0 <= i < n ==> bands[..n][i] == bands[i];
      }
      AllEvents(pitches[..n], bands[..n], delay) + ToothEvents(pitches[n], bands[n], delay)
  }

  /** Every hole yields its note-on and its note-off. */
  lemma {:induction false} AllEventsCover(pitches: seq<int>, bands: seq<seq<int>>, delay: int)
    requires |pitches| == |bands| && Schedulable(bands, delay)
    ensures forall i, k :: 0 <= i < |bands| && 0 <= k < |bands[i]| ==>
              && NoteEvent(bands[i][k], pitches[i], true) in AllEvents(pitches, bands, delay)
              && NoteEvent(bands[i][k] + delay, pitches[i], false) in AllEvents(pitches, bands, delay)
    decreases |bands|
  {
    if |bands| > 0 {
      var n := |bands| - 1;
      var init := AllEvents(pitches[..n], bands[..n], delay);
      var own := ToothEvents(pitches[n], bands[n], delay);
      assert AllEvents(pitches, bands, delay) == init + own;
      AllEventsCover(pitches[..n], bands[..n], delay);
      forall i, k | 0 <= i <= n && 0 <= k < |bands[i]|
        ensures NoteEvent(bands[i][k], pitches[i], true) in init + own
        ensures NoteEvent(bands[i][k] + delay, pitches[i], false) in init + own
      {
        if i == n {
          assert own[k] == NoteEvent(bands[n][k], pitches[n], true);
          assert own[|bands[n]| + k] == NoteEvent(bands[n][k] + delay, pitches[n], false);
        } else {
          assert bands[..n][i] == bands[i] && pitches[..n][i] == pitches[i];
        }
      }
    }
  }

  /** Every event is one of a hole's two: the note-on at the hole's tick
      or the note-off `delay` later, at the tooth's pitch. */
  lemma {:induction false} AllEventsOrigin(pitches: seq<int>, bands: seq<seq<int>>, delay: int)
    requires |pitches| == |bands| && Schedulable(bands, delay)
    ensures forall e :: e in AllEvents(pitches, bands, delay) ==>
              exists i, k :: 0 <= i < |bands| && 0 <= k < |bands[i]| &&
                (e == NoteEvent(bands[i][k], pitches[i], true) || e == NoteEvent(bands[i][k] + delay, pitches[i], false))
    decreases |bands|
  {
    if |bands| > 0 {
      var n := |bands| - 1;
      var init := AllEvents(pitches[..n], bands[..n], delay);
      var own := ToothEvents(pitches[n], bands[n], delay);
      assert AllEvents(pitches, bands, delay) == init + own;
      AllEventsOrigin(pitches[..n], bands[..n], delay);
      forall e: NoteEvent | e in init + own
        ensures exists i, k :: 0 <= i < |bands| && 0 <= k < |bands[i]| &&
                  (e == NoteEvent(bands[i][k], pitches[i], true) || e == NoteEvent(bands[i][k] + delay, pitches[i], false))
      {
        if e in init {
          var i, k :| 0 <= i < n && 0 <= k < |bands[..n][i]| &&
                      (e == NoteEvent(bands[..n][i][k], pitches[..n][i], true) || e == NoteEvent(bands[..n][i][k] + delay, pitches[..n][i], false));
          assert bands[..n][i] == bands[i] && pitches[..n][i] == pitches[i];
        } else {
          var j :| 0 <= j < |own| && own[j] == e;
          if j >= |bands[n]| {
            var k := j - |bands[n]|;
            assert own[|bands[n]| + k] == e;
            assert e == NoteEvent(bands[n][k] + delay, pitches[n], false);
          } else {
            assert e == NoteEvent(bands[n][j], pitches[n], true);
          }
        }
      }
    }
  }

  /** An event's pitch is a tooth's pitch. */
  lemma {:induction false} EventPitch(pitches: seq<int>, bands: seq<seq<int>>, delay: int, e: NoteEvent)
    requires |pitches| == |bands| && Schedulable(bands, delay) && e in AllEvents(pitches, bands, delay)
    ensures exists i :: 0 <= i < |pitches| && e.pitch == pitches[i]
  {
    AllEventsOrigin(pitches, bands, delay);
    var i, k :| 0 <= i < |bands| && 0 <= k < |bands[i]| &&
                (e == NoteEvent(bands[i][k], pitches[i], true) || e == NoteEvent(bands[i][k] + delay, pitches[i], false));
  }

  /** `events.sort()`. */
  function SortedEvents(pitches: seq<int>, bands: seq<seq<int>>, delay: int): (r: seq<NoteEvent>)
    requires |pitches| == |bands| && Schedulable(bands, delay)
    ensures SortedBy(r, EventLe)
    ensures multiset(r) == multiset(AllEvents(pitches, bands, delay))
  {
    EventLeTotal();
    Sort(AllEvents(pitches, bands, delay), EventLe)
  }

  /** Events the writer can emit: pitches fit a byte and ticks do not
      decrease from `last` on. */
  predicate Writable(last: int, events: seq<NoteEvent>)
    decreases |events|
  {
    || |events| == 0
    || (&& last <= events[0].tick && 0 <= events[0].pitch < 0x100
        && Writable(events[0].tick, events[1..]))
  }

  /** Writable, stated over all positions: every tick from `last` on and
      every pitch a byte, ticks in ascending order. */
  lemma {:induction false} WritableFromOrder(last: int, events: seq<NoteEvent>)
    requires forall k :: 0 <= k < |events| ==> last <= events[k].tick && 0 <= events[k].pitch < 0x100
    requires forall i, j :: 0 <= i < j < |events| ==> events[i].tick <= events[j].tick
    ensures Writable(last, events)
    decreases |events|
  {
    if |events| > 0 {
      var rest := events[1..];
      forall k | 0 <= k < |rest|
        ensures events[0].tick <= rest[k].tick && 0 <= rest[k].pitch < 0x100
      {
        assert rest[k] == events[k + 1];
      }
      forall i, j | 0 <= i < j < |rest|
        ensures rest[i].tick <= rest[j].tick
      {
        assert rest[i] == events[i + 1] && rest[j] == events[j + 1];
      }
      WritableFromOrder(events[0].tick, rest);
    }
  }

  /** Status byte of an event: note-on or note-off on channel 0. */
  function Status(e: NoteEvent): Byte {
    if e.on then 0x90 else 0x80
  }

  /** The event loop: each event as its delta time from the previous one,
      its status, its pitch and velocity 127. */
  function EventBytes(last: nat, events: seq<NoteEvent>): (r: seq<Byte>)
    requires Writable(last, events)
    ensures 4 * |events| <= |r| <= 7 * |events|
    decreases |events|
  {
    if |events| == 0 then []
    else
      var e := events[0];
      Vlq.Encode(e.tick - last) + [Status(e), e.pitch, 0x7F] + EventBytes(e.tick, events[1..])
  }

  /** The meta event that ends the track, at delta 0. */
  const EndOfTrack: seq<Byte> := [0x00, 0xFF, 0x2F, 0x00]

  /** The track payload: the program select at delta 0 (lamusica.py only),
      the events, the end of track. */
  function TrackPayload(program: Option<Byte>, events: seq<NoteEvent>): (r: seq<Byte>)
    requires Writable(0, events)
    ensures var framing := if program.Some? then 7 else 4;
            framing + 4 * |events| <= |r| <= framing + 7 * |events|
  {
    (if program.Some? then [0x00, 0xC0, program.value] else []) + EventBytes(0, events) + EndOfTrack
  }

  /** `struct.pack(">hhh", 0, 1, delta_ticks)`: format 0, one track. */
  function HeaderData(timediv: int): (r: seq<Byte>)
    requires -0x8000 <= timediv < 0x8000
    ensures |r| == 6 && S16(r[4], r[5]) == timediv
  {
    [0x00, 0x00, 0x00, 0x01] + S16Bytes(timediv)
  }

  /** The whole file; `None` when the payload is too long for the signed
      32-bit length `struct.pack(">i")` writes. */
  function EncodeFile(timediv: int, program: Option<Byte>, events: seq<NoteEvent>): (r: Option<seq<Byte>>)
    requires -0x8000 <= timediv < 0x8000 && Writable(0, events)
    ensures r.Some? <==> |TrackPayload(program, events)| < 0x8000_0000
    ensures r.Some? ==> r.value == Frame(HeaderTag, HeaderData(timediv)) + Frame(TrackTag, TrackPayload(program, events))
  {
    var payload := TrackPayload(program, events);
    if |payload| < 0x8000_0000 then Some(Frame(HeaderTag, HeaderData(timediv)) + Frame(TrackTag, payload))
    else None
  }

  /** Pitches and program the byte-sized `chr` accepts. */
  predicate ByteSized(pitches: seq<int>) {
    forall i :: 0 <= i < |pitches| ==> 0 <= pitches[i] < 0x100
  }

  lemma {:induction false} SortedWritable(pitches: seq<int>, bands: seq<seq<int>>, delay: int)
    requires |pitches| == |bands| && Schedulable(bands, delay) && ByteSized(pitches)
    ensures Writable(0, SortedEvents(pitches, bands, delay))
  {
    var all := AllEvents(pitches, bands, delay);
    var r := SortedEvents(pitches, bands, delay);
    forall k | 0 <= k < |r|
      ensures 0 <= r[k].pitch < 0x100
    {
      assert r[k] in multiset(all);
      EventPitch(pitches, bands, delay, r[k]);
    }
    forall i, j | 0 <= i < j < |r|
      ensures r[i].tick <= r[j].tick
    {
      assert EventLe(r[i], r[j]);
    }
    WritableFromOrder(0, r);
  }

  /** `output_midi` of lamusica.py: program change to the box's program,
      note-offs `mindelta` after the note-ons. */
  function OutputMidi(timediv: int, program: Byte, pitches: seq<int>, bands: seq<seq<int>>, mindelta: int): (r: Option<seq<Byte>>)
    requires -0x8000 <= timediv < 0x8000 && |pitches| == |bands| && ByteSized(pitches) && Schedulable(bands, mindelta)
    ensures var events := SortedEvents(pitches, bands, mindelta);
            Writable(0, events) && r == EncodeFile(timediv, Some(program), events)
  {
    SortedWritable(pitches, bands, mindelta);
    EncodeFile(timediv, Some(program), SortedEvents(pitches, bands, mindelta))
  }

  /** Note-offs in midi.py come a fixed 512 ticks after the note-ons. */
  const LegacyOffDelay := 512

  /** `output_midi` of midi.py: no program change. */
  function LegacyOutputMidi(timediv: int, pitches: seq<int>, bands: seq<seq<int>>): (r: Option<seq<Byte>>)
    requires -0x8000 <= timediv < 0x8000 && |pitches| == |bands| && ByteSized(pitches) && Schedulable(bands, LegacyOffDelay)
    ensures var events := SortedEvents(pitches, bands, LegacyOffDelay);
            Writable(0, events) && r == EncodeFile(timediv, None, events)
  {
    SortedWritable(pitches, bands, LegacyOffDelay);
    EncodeFile(timediv, None, SortedEvents(pitches, bands, LegacyOffDelay))
  }
}
