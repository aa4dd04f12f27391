/** `PianoRoll.get_compat_band` of lamusica.py: folds every pitch onto the
    tooth of its pitch class it reaches by whole octaves without passing
    another tooth, and collects per tooth the distinct ticks it must play. */
module Band {
  import opened Sorting
  import opened Notes
  import opened BoxModels

  /** Highest MIDI pitch. */
  const Top := 127

  /** The downward walk from `n` in octave steps, stopping below 0 or at a
      tooth pitch. */
  function WalkDown(pitches: seq<int>, n: int): (r: seq<int>)
    decreases if n < 0 then 0 else n + 1
  {
    if n < 0 || n in pitches then [] else [n] + WalkDown(pitches, n - 12)
  }

  /** The upward walk from `n` in octave steps, stopping above 127 or at a
      tooth pitch. */
  function WalkUp(pitches: seq<int>, n: int): (r: seq<int>)
    decreases if n > Top then 0 else Top + 1 - n
  {
    if n > Top || n in pitches then [] else [n] + WalkUp(pitches, n + 12)
  }

  /** `source_notes` of tooth `i`: its own pitch and both walks. */
  function SourcePitches(pitches: seq<int>, i: nat): (r: seq<int>)
    requires i < |pitches|
    ensures |r| >= 1 && r[0] == pitches[i]
  {
    [pitches[i]] + WalkDown(pitches, pitches[i] - 12) + WalkUp(pitches, pitches[i] + 12)
  }

  /** No tooth of the pitch class of `p` lies in `[lo, hi]`. */
  predicate NoToothBetween(pitches: seq<int>, p: int, lo: int, hi: int) {
    forall k :: 0 <= k < |pitches| && lo <= pitches[k] <= hi ==> (pitches[k] - p) % 12 != 0
  }

  /** Which pitches tooth `p` plays, stated without the walks: its own
      pitch, and every MIDI pitch of its class that is reached from `p`
      without meeting a tooth of that class on the way (the end included). */
  predicate Claims(pitches: seq<int>, p: int, x: int) {
    || x == p
    || (0 <= x < p && (p - x) % 12 == 0 && NoToothBetween(pitches, p, x, p - 1))
    || (p < x <= Top && (x - p) % 12 == 0 && NoToothBetween(pitches, p, p + 1, x))
  }

  lemma {:induction false} WalkDownReaches(pitches: seq<int>, n: int, x: int)
    ensures x in WalkDown(pitches, n) <==> 0 <= x <= n && (n - x) % 12 == 0 && NoToothBetween(pitches, n, x, n)
    decreases if n < 0 then 0 else n + 1
  {
    if n >= 0 {
      WalkDownReaches(pitches, n - 12, x);
      if n !in pitches {
        assert forall k :: 0 <= k < |pitches| ==> ((pitches[k] - n) % 12 == 0 <==> (pitches[k] - (n - 12)) % 12 == 0);
        assert NoToothBetween(pitches, n, x, n) <==> NoToothBetween(pitches, n - 12, x, n - 12);
      } else {
        var k :| 0 <= k < |pitches| && pitches[k] == n;
        assert (pitches[k] - n) % 12 == 0;
      }
    }
  }

  lemma {:induction false} WalkUpReaches(pitches: seq<int>, n: int, x: int)
    ensures x in WalkUp(pitches, n) <==> n <= x <= Top && (x - n) % 12 == 0 && NoToothBetween(pitches, n, n, x)
    decreases if n > Top then 0 else Top + 1 - n
  {
    if n <= Top {
      WalkUpReaches(pitches, n + 12, x);
      if n !in pitches {
        assert forall k :: 0 <= k < |pitches| ==> ((pitches[k] - n) % 12 == 0 <==> (pitches[k] - (n + 12)) % 12 == 0);
        assert NoToothBetween(pitches, n, n, x) <==> NoToothBetween(pitches, n + 12, n + 12, x);
      } else {
        var k :| 0 <= k < |pitches| && pitches[k] == n;
        assert (pitches[k] - n) % 12 == 0;
      }
    }
  }

  /** The walks reach exactly the pitches the tooth claims. */
  lemma {:induction false} SourcePitchesClaimed(pitches: seq<int>, i: nat, x: int)
    requires i < |pitches|
    ensures x in SourcePitches(pitches, i) <==> Claims(pitches, pitches[i], x)
  {
    var p := pitches[i];
    WalkDownReaches(pitches, p - 12, x);
    WalkUpReaches(pitches, p + 12, x);
    assert forall k :: 0 <= k < |pitches| ==> ((pitches[k] - p) % 12 == 0 <==> (pitches[k] - (p - 12)) % 12 == 0);
    assert forall k :: 0 <= k < |pitches| ==> ((pitches[k] - p) % 12 == 0 <==> (pitches[k] - (p + 12)) % 12 == 0);
    assert ((p - 12) - x) % 12 == 0 <==> (p - x) % 12 == 0;
    assert (x - (p + 12)) % 12 == 0 <==> (x - p) % 12 == 0;
  }

  lemma {:induction false} SameClass(y: int, u: int, v: int)
    requires (u - v) % 12 == 0
    ensures (y - u) % 12 == 0 <==> (y - v) % 12 == 0
  {
    var q := (u - v) / 12;
    assert y - v == (y - u) + 12 * q;
  }

  /** A tooth's own pitch is played by that tooth alone (or by a tooth of
      the same pitch). */
  lemma {:induction false} ToothPitchOwnToothOnly(pitches: seq<int>, i: nat, j: nat)
    requires i < |pitches| && j < |pitches|
    ensures pitches[j] in SourcePitches(pitches, i) <==> pitches[j] == pitches[i]
  {
    SourcePitchesClaimed(pitches, i, pitches[j]);
    var p, x := pitches[i], pitches[j];
    assert x < p && (p - x) % 12 == 0 ==> !NoToothBetween(pitches, p, x, p - 1) by {
      if x < p && (p - x) % 12 == 0 {
        SameClass(x, p, x);
        assert x <= pitches[j] <= p - 1 && (pitches[j] - p) % 12 == 0;
      }
    }
    assert x > p && (x - p) % 12 == 0 ==> !NoToothBetween(pitches, p, p + 1, x) by {
      if x > p && (x - p) % 12 == 0 {
        assert p + 1 <= pitches[j] <= x && (pitches[j] - p) % 12 == 0;
      }
    }
  }

  /** A gap pitch between two teeth of its class, with no tooth of the
      class between them, is played by both. */
  lemma {:induction false} GapSharedByNeighbours(pitches: seq<int>, i: nat, j: nat, x: int)
    requires i < |pitches| && j < |pitches| && 0 <= pitches[i] < x < pitches[j] <= Top
    requires (x - pitches[i]) % 12 == 0 && (pitches[j] - x) % 12 == 0
    requires NoToothBetween(pitches, x, pitches[i] + 1, pitches[j] - 1)
    ensures x in SourcePitches(pitches, i) && x in SourcePitches(pitches, j)
  {
    var a, b := pitches[i], pitches[j];
    SourcePitchesClaimed(pitches, i, x);
    SourcePitchesClaimed(pitches, j, x);
    forall k | 0 <= k < |pitches|
      ensures (pitches[k] - x) % 12 == 0 <==> (pitches[k] - a) % 12 == 0
      ensures (pitches[k] - x) % 12 == 0 <==> (pitches[k] - b) % 12 == 0
    {
      SameClass(pitches[k], x, a);
      SameClass(pitches[k], b, x);
    }
    assert NoToothBetween(pitches, a, a + 1, x);
    assert NoToothBetween(pitches, b, x, b - 1);
  }

  /** A note contributes to a band when it carries no tag and its shifted
      pitch is one the tooth plays. */
  predicate Feeds(n: Note, source: seq<int>, transpose: int) {
    n.pitch + transpose in source && n.filtered == {}
  }

  /** The ticks of the notes that feed a tooth, in roll order. */
  function FedTicks(notes: seq<Note>, source: seq<int>, transpose: int): (r: seq<int>)
    ensures forall t :: t in r <==> exists k :: 0 <= k < |notes| && notes[k].tick == t && Feeds(notes[k], source, transpose)
    decreases |notes|
  {
    if |notes| == 0 then []
    else
      var rest := FedTicks(notes[1..], source, transpose);
      assert forall k :: 1 <= k < |notes| ==> notes[k] == notes[1..][k - 1];
      (if Feeds(notes[0], source, transpose) then [notes[0].tick] else []) + rest
  }

  /** `get_compat_band`: per tooth the distinct ticks, ascending, of the
      untagged notes whose shifted pitch the tooth plays. */
  function CompatBand(m: BoxModel, notes: seq<Note>, transpose: int): (bands: seq<seq<int>>)
    ensures |bands| == |m.offsets|
    ensures forall i :: 0 <= i < |bands| ==> StrictlyAscending(bands[i])
    ensures forall i, t :: 0 <= i < |bands| ==>
              (t in bands[i] <==> exists k :: 0 <= k < |notes| && notes[k].tick == t &&
                                   Feeds(notes[k], SourcePitches(Pitches(m), i), transpose))
  {
    var pitches := Pitches(m);
    seq(|pitches|, i requires 0 <= i < |pitches| => SortedSet(FedTicks(notes, SourcePitches(pitches, i), transpose)))
  }
}
