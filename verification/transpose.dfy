/** `PianoRoll.find_transpose` of lamusica.py: the shift that leaves the
    fewest notes without a tooth, preferring small shifts. */
module Transpose {
  import opened Wrappers
  import opened Notes

  function Abs(x: int): nat {
    if x < 0 then -x else x
  }

  /** A note the search counts against a shift: its pitch is a MIDI pitch
      (0..127) and the shifted pitch has no tooth. */
  predicate Misses(n: Note, avail: seq<int>, trans: int) {
    0 <= n.pitch < 0x80 && n.pitch + trans !in avail
  }

  /** The number of notes left without a tooth by shifting every pitch by `trans`. */
  function Unplayable(notes: seq<Note>, avail: seq<int>, trans: int): (r: nat)
    ensures r <= |notes|
    ensures r == 0 <==> forall k :: 0 <= k < |notes| ==> !Misses(notes[k], avail, trans)
    ensures r == |notes| <==> forall k :: 0 <= k < |notes| ==> Misses(notes[k], avail, trans)
    decreases |notes|
  {
    if |notes| == 0 then 0
    else
      var init := notes[..|notes| - 1];
      var r := Unplayable(init, avail, trans) + (if Misses(notes[|notes| - 1], avail, trans) then 1 else 0);
      assert forall k :: 0 <= k < |init| ==> init[k] == notes[k];
      r
  }

  /** The shifts the options admit: with half-tone steps disallowed only
      whole octaves, and with octaves disallowed as well none at all. */
  predicate Candidate(trans: int, octaves: bool, halftones: bool) {
    && (halftones || trans % 12 == 0)
    && !(!halftones && !octaves && trans % 12 == 0)
  }

  /** `(e1, t1)` is at least as good as `(e2, t2)`: fewer unplayable notes,
      then the smaller shift, then (between `t` and `-t`) the one met first
      in the ascending scan. */
  predicate NotWorse(e1: int, t1: int, e2: int, t2: int) {
    e1 < e2 || (e1 == e2 && (Abs(t1) < Abs(t2) || (Abs(t1) == Abs(t2) && t1 <= t2)))
  }

  function MinOf(s: seq<int>): (m: int)
    requires |s| > 0
    ensures m in s && forall k :: 0 <= k < |s| ==> m <= s[k]
  {
    if |s| == 1 then s[0]
    else
      var m := MinOf(s[1..]);
      assert forall k :: 1 <= k < |s| ==> s[k] == s[1..][k - 1];
      if s[0] <= m then s[0] else m
  }

  function MaxOf(s: seq<int>): (m: int)
    requires |s| > 0
    ensures m in s && forall k :: 0 <= k < |s| ==> s[k] <= m
  {
    if |s| == 1 then s[0]
    else
      var m := MaxOf(s[1..]);
      assert forall k :: 1 <= k < |s| ==> s[k] == s[1..][k - 1];
      if s[0] >= m then s[0] else m
  }

  function PitchesOf(notes: seq<Note>): (p: seq<int>)
    ensures |p| == |notes| && forall k :: 0 <= k < |notes| ==> p[k] == notes[k].pitch
  {
    seq(|notes|, k requires 0 <= k < |notes| => notes[k].pitch)
  }

  /** The scanned shifts run from one below the shift that puts the highest
      note on the lowest tooth to one above the shift that puts the lowest
      note on the highest tooth. */
  function Low(notes: seq<Note>, avail: seq<int>): int
    requires |notes| > 0 && |avail| > 0
  {
    MinOf(avail) - MaxOf(PitchesOf(notes)) - 1
  }

  function High(notes: seq<Note>, avail: seq<int>): int
    requires |notes| > 0 && |avail| > 0
  {
    MaxOf(avail) - MinOf(PitchesOf(notes)) + 1
  }

  /** The loop of `find_transpose` over the shifts `lo..hi`: the first
      admitted shift that beats every earlier one, with its error count;
      0 with error `sys.maxint` when no shift is admitted. */
  method BestShift(notes: seq<Note>, avail: seq<int>, octaves: bool, halftones: bool, lo: int, hi: int)
    returns (best: int, err: int)
    ensures || (best == 0 && err == MaxInt)
            || (Candidate(best, octaves, halftones) && lo <= best <= hi && err == Unplayable(notes, avail, best))
    ensures forall c :: lo <= c <= hi && Candidate(c, octaves, halftones) ==>
              NotWorse(err, best, Unplayable(notes, avail, c), c)
  {
    var found := false;
    best, err := 0, MaxInt;
    var trans := lo;
    while trans <= hi
      invariant lo <= trans <= hi + 1 || (hi < lo && trans == lo)
      invariant found ==> Candidate(best, octaves, halftones) && lo <= best < trans
                          && err == Unplayable(notes, avail, best)
      invariant !found ==> best == 0 && err == MaxInt
      invariant forall c :: lo <= c < trans && Candidate(c, octaves, halftones) ==>
                  NotWorse(err, best, Unplayable(notes, avail, c), c)
      decreases hi + 1 - trans
    {
      if Candidate(trans, octaves, halftones) {
        var e := Unplayable(notes, avail, trans);
        if e < err || (e == err && Abs(trans) < Abs(best)) {
          best, err, found := trans, e, true;
        }
      }
      trans := trans + 1;
    }
  }

  /** What `find_transpose` leaves for a non-empty roll and comb: either no
      shift was admitted (0 with error `sys.maxint`), or an admitted shift
      in range with its own error count; and no admitted shift in range
      does better. */
  predicate Chosen(notes: seq<Note>, avail: seq<int>, octaves: bool, halftones: bool, shift: int, err: int)
    requires |notes| > 0 && |avail| > 0
  {
    && (|| (shift == 0 && err == MaxInt)
        || (&& Candidate(shift, octaves, halftones)
            && Low(notes, avail) <= shift <= High(notes, avail)
            && err == Unplayable(notes, avail, shift)))
    && forall c :: Low(notes, avail) <= c <= High(notes, avail) && Candidate(c, octaves, halftones) ==>
         NotWorse(err, shift, Unplayable(notes, avail, c), c)
  }

  /** The scan of `find_transpose`. `max`/`min` of an empty list raise, so
      an empty roll or comb gives `None`. Otherwise the result is the first
      shift that beats every earlier one, together with its error count;
      when no shift is admitted it is 0 with error `sys.maxint`. */
  method FindTranspose(notes: seq<Note>, avail: seq<int>, octaves: bool, halftones: bool)
    returns (r: Option<int>, unplayable: int)
    ensures r.Some? <==> |notes| > 0 && |avail| > 0
    ensures r.Some? ==>
      || (r.value == 0 && unplayable == MaxInt)
      || (&& Candidate(r.value, octaves, halftones)
          && Low(notes, avail) <= r.value <= High(notes, avail)
          && unplayable == Unplayable(notes, avail, r.value))
    ensures r.Some? ==> forall c :: Low(notes, avail) <= c <= High(notes, avail) && Candidate(c, octaves, halftones) ==>
              NotWorse(unplayable, r.value, Unplayable(notes, avail, c), c)
    ensures r.Some? && !halftones ==> r.value % 12 == 0
    ensures r.Some? && (octaves || halftones) && (forall k :: 0 <= k < |notes| ==> notes[k].pitch in avail) ==>
              r.value == 0 && unplayable == 0
  {
    if |notes| == 0 || |avail| == 0 {
      return None, MaxInt;
    }
    var best, err := BestShift(notes, avail, octaves, halftones, Low(notes, avail), High(notes, avail));
    r, unplayable := Some(best), err;
    if (octaves || halftones) && (forall k :: 0 <= k < |notes| ==> notes[k].pitch in avail) {
      PlayableStays(notes, avail, octaves, halftones, best, err);
    }
  }

  /** A roll whose every pitch already has a tooth is left where it is. */
  lemma {:induction false} PlayableStays(notes: seq<Note>, avail: seq<int>, octaves: bool, halftones: bool,
                                         r: int, unplayable: int)
    requires |notes| > 0 && |avail| > 0 && (octaves || halftones)
    requires forall k :: 0 <= k < |notes| ==> notes[k].pitch in avail
    requires unplayable >= 0
    requires forall c :: Low(notes, avail) <= c <= High(notes, avail) && Candidate(c, octaves, halftones) ==>
               NotWorse(unplayable, r, Unplayable(notes, avail, c), c)
    ensures unplayable == 0 && r == 0
  {
    var p := PitchesOf(notes);
    var x := notes[0].pitch;
    assert p[0] == x;
    var i :| 0 <= i < |avail| && avail[i] == x;
    assert MinOf(avail) <= avail[i] && avail[i] <= MaxOf(avail);
    assert MinOf(p) <= p[0] <= MaxOf(p);
    assert Low(notes, avail) <= 0 <= High(notes, avail);
    assert Candidate(0, octaves, halftones);
    assert forall k :: 0 <= k < |notes| ==> !Misses(notes[k], avail, 0);
    assert Unplayable(notes, avail, 0) == 0;
    assert NotWorse(unplayable, r, 0, 0);
  }
}
