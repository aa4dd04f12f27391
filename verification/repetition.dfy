/** `PianoRoll.filter_repetition` and `PianoRoll.min_repetition` of
    lamusica.py. Both first put the notes in (pitch, tick) order. */
module Repetition {
  import opened Sorting
  import opened Notes

  /** A note with the repetition tag cleared; the filter changes nothing else. */
  function Strip(n: Note): (r: Note)
    ensures DeltaTag !in r.filtered
    ensures r.pitch == n.pitch && r.tick == n.tick
  {
    n.(filtered := n.filtered - {DeltaTag})
  }

  lemma {:induction false} StripTwice(n: Note)
    ensures Strip(Strip(n)) == Strip(n)
  {
    assert (n.filtered - {DeltaTag}) - {DeltaTag} == n.filtered - {DeltaTag};
  }

  function Tag(n: Note): (r: Note)
    ensures DeltaTag in r.filtered && Strip(r) == Strip(n)
  {
    n.(filtered := n.filtered + {DeltaTag})
  }

  /** Whether the note at `k` survives: the first note is the pass's initial
      reference and keeps whatever tags it had; every later note survives
      when it does not carry the tag. */
  predicate Kept(out: seq<Note>, k: nat)
    requires k < |out|
  {
    k == 0 || DeltaTag !in out[k].filtered
  }

  /** Surviving notes of one pitch are at least `delta` ticks apart. */
  predicate Spaced(out: seq<Note>, delta: int) {
    forall i, j :: 0 <= i < j < |out| && Kept(out, i) && Kept(out, j) && out[i].pitch == out[j].pitch ==>
      out[j].tick - out[i].tick >= delta
  }

  /** Every tagged note lies less than `delta` after an earlier surviving
      note of its pitch. */
  predicate Justified(out: seq<Note>, delta: int) {
    forall j :: 0 <= j < |out| && !Kept(out, j) ==>
      exists i :: 0 <= i < j && Kept(out, i) && out[i].pitch == out[j].pitch && out[j].tick - out[i].tick < delta
  }

  /** The number of tagged notes. */
  function TagCount(s: seq<Note>): (c: nat)
    ensures c <= |s|
    decreases |s|
  {
    if |s| == 0 then 0
    else TagCount(s[..|s| - 1]) + (if DeltaTag in s[|s| - 1].filtered then 1 else 0)
  }

  lemma {:induction false} SameTag(a: Note, b: Note)
    requires Strip(a) == Strip(b)
    ensures Tag(a) == Tag(b)
  {
    assert a.filtered + {DeltaTag} == (a.filtered - {DeltaTag}) + {DeltaTag};
    assert b.filtered + {DeltaTag} == (b.filtered - {DeltaTag}) + {DeltaTag};
  }

  /** `SortedBy(s, PitchTickLe)` spelled out. */
  predicate InPitchTickOrder(s: seq<Note>) {
    forall i, j :: 0 <= i < j < |s| ==> s[i].pitch < s[j].pitch || (s[i].pitch == s[j].pitch && s[i].tick <= s[j].tick)
  }

  /** What holds between steps of the pass over `s`: `out` is the processed
      prefix, equal to `s` up to the tag, with its first note untouched;
      `ref` is its last surviving note; `count` is the number of tags set. */
  predicate PassState(s: seq<Note>, out: seq<Note>, ref: nat, count: nat, delta: int) {
    && InPitchTickOrder(s)
    && 1 <= |out| <= |s| && ref < |out| && out[0] == s[0]
    && (forall k :: 0 <= k < |out| ==> Strip(out[k]) == Strip(s[k]))
    && Kept(out, ref) && (forall k :: ref < k < |out| ==> !Kept(out, k))
    && Spaced(out, delta) && Justified(out, delta)
    && count == TagCount(out[1..])
  }

  /** The tagging branch: the next note is close to the reference. */
  predicate TooClose(s: seq<Note>, out: seq<Note>, ref: nat, delta: int)
    requires ref < |out| < |s|
  {
    s[|out|].pitch == out[ref].pitch && s[|out|].tick - out[ref].tick < delta
  }

  lemma {:induction false} CountAppend(out: seq<Note>, x: Note)
    requires |out| >= 1
    ensures TagCount((out + [x])[1..]) == TagCount(out[1..]) + (if DeltaTag in x.filtered then 1 else 0)
  {
    var t := (out + [x])[1..];
    assert t == out[1..] + [x];
    assert t[..|t| - 1] == out[1..];
  }

  lemma {:induction false} SpacedAppendTagged(out: seq<Note>, x: Note, delta: int)
    requires Spaced(out, delta) && |out| >= 1 && DeltaTag in x.filtered
    ensures Spaced(out + [x], delta)
  {
    var out' := out + [x];
    forall i, j | 0 <= i < j < |out'| && Kept(out', i) && Kept(out', j) && out'[i].pitch == out'[j].pitch
      ensures out'[j].tick - out'[i].tick >= delta
    {
      assert j < |out|;
      assert out'[i] == out[i] && out'[j] == out[j];
    }
  }

  lemma {:induction false} SpacedAppendKept(out: seq<Note>, x: Note, ref: nat, delta: int)
    requires Spaced(out, delta) && InPitchTickOrder(out) && ref < |out| && Kept(out, ref)
    requires forall k :: ref < k < |out| ==> !Kept(out, k)
    requires forall k :: 0 <= k < |out| ==> out[k].pitch < x.pitch || (out[k].pitch == x.pitch && out[k].tick <= x.tick)
    requires out[ref].pitch == x.pitch ==> x.tick - out[ref].tick >= delta
    ensures Spaced(out + [x], delta)
  {
    var out' := out + [x];
    forall i, j | 0 <= i < j < |out'| && Kept(out', i) && Kept(out', j) && out'[i].pitch == out'[j].pitch
      ensures out'[j].tick - out'[i].tick >= delta
    {
      assert out'[i] == out[i];
      if j < |out| {
        assert out'[j] == out[j];
      } else {
        assert Kept(out, i) && i <= ref;
        assert out[i].pitch <= out[ref].pitch <= x.pitch;
        assert x.tick >= out[ref].tick;
      }
    }
  }

  lemma {:induction false} JustifiedAppend(out: seq<Note>, x: Note, ref: nat, delta: int)
    requires Justified(out, delta) && ref < |out| && Kept(out, ref)
    requires DeltaTag in x.filtered ==> out[ref].pitch == x.pitch && x.tick - out[ref].tick < delta
    ensures Justified(out + [x], delta)
  {
    var out' := out + [x];
    forall j | 0 <= j < |out'| && !Kept(out', j)
      ensures exists i :: 0 <= i < j && Kept(out', i) && out'[i].pitch == out'[j].pitch && out'[j].tick - out'[i].tick < delta
    {
      if j < |out| {
        assert out'[j] == out[j] && !Kept(out, j);
        var i :| 0 <= i < j && Kept(out, i) && out[i].pitch == out[j].pitch && out[j].tick - out[i].tick < delta;
        assert Kept(out', i) && out'[i] == out[i];
      } else {
        assert Kept(out', ref) && out'[ref] == out[ref];
      }
    }
  }

  /** The notes of `s` after position `m` come no earlier than the processed ones. */
  lemma {:induction false} OrderedBefore(s: seq<Note>, out: seq<Note>)
    requires InPitchTickOrder(s) && |out| < |s|
    requires forall k :: 0 <= k < |out| ==> Strip(out[k]) == Strip(s[k])
    ensures forall k :: 0 <= k < |out| ==>
              out[k].pitch < s[|out|].pitch || (out[k].pitch == s[|out|].pitch && out[k].tick <= s[|out|].tick)
    ensures InPitchTickOrder(out)
  {
    forall i, j | 0 <= i < j < |out|
      ensures out[i].pitch < out[j].pitch || (out[i].pitch == out[j].pitch && out[i].tick <= out[j].tick)
    {
      assert Strip(out[i]) == Strip(s[i]) && Strip(out[j]) == Strip(s[j]);
    }
    forall k | 0 <= k < |out|
      ensures out[k].pitch < s[|out|].pitch || (out[k].pitch == s[|out|].pitch && out[k].tick <= s[|out|].tick)
    {
      assert Strip(out[k]) == Strip(s[k]);
    }
  }

  lemma {:induction false} TagStep(s: seq<Note>, out: seq<Note>, ref: nat, count: nat, delta: int)
    requires PassState(s, out, ref, count, delta) && |out| < |s| && TooClose(s, out, ref, delta)
    ensures PassState(s, out + [Tag(s[|out|])], ref, count + 1, delta)
  {
    var m, x := |out|, Tag(s[|out|]);
    var out' := out + [x];
    CountAppend(out, x);
    SpacedAppendTagged(out, x, delta);
    JustifiedAppend(out, x, ref, delta);
    forall k | 0 <= k <= m
      ensures Strip(out'[k]) == Strip(s[k])
    {
      if k < m {
        assert out'[k] == out[k];
      }
    }
    forall k | ref < k <= m
      ensures !Kept(out', k)
    {
      if k < m {
        assert out'[k] == out[k] && !Kept(out, k);
      }
    }
    assert out'[0] == out[0] && out'[ref] == out[ref] && Kept(out', ref);
  }

  lemma {:induction false} KeepStep(s: seq<Note>, out: seq<Note>, ref: nat, count: nat, delta: int)
    requires PassState(s, out, ref, count, delta) && |out| < |s| && !TooClose(s, out, ref, delta)
    ensures PassState(s, out + [Strip(s[|out|])], |out|, count, delta)
  {
    var m, x := |out|, Strip(s[|out|]);
    var out' := out + [x];
    assert TagCount(out'[1..]) == count by {
      CountAppend(out, x);
    }
    assert Spaced(out', delta) by {
      OrderedBefore(s, out);
      SpacedAppendKept(out, x, ref, delta);
    }
    assert Justified(out', delta) by {
      JustifiedAppend(out, x, ref, delta);
    }
    assert forall k :: 0 <= k <= m ==> Strip(out'[k]) == Strip(s[k]) by {
      StripTwice(s[m]);
      assert forall k :: 0 <= k < m ==> out'[k] == out[k];
    }
    assert out'[0] == s[0] && Kept(out', m);
  }

  /** The loop of `filter_repetition` over the notes after `out`: `ref` is
      the position of `n0`, the last surviving note. A note of `n0`'s pitch
      less than `delta` after it is tagged and counted; any other note loses
      the tag and becomes `n0`. */
  function Pass(s: seq<Note>, out: seq<Note>, ref: nat, count: nat, delta: int): (r: (seq<Note>, nat))
    requires ref < |out| <= |s|
    ensures |r.0| == |s|
    decreases |s| - |out|
  {
    if |out| == |s| then (out, count)
    else if TooClose(s, out, ref, delta) then Pass(s, out + [Tag(s[|out|])], ref, count + 1, delta)
    else Pass(s, out + [Strip(s[|out|])], |out|, count, delta)
  }

  /** From any state between steps, the pass ends with the notes of `s`
      differing at most in the tag, the first note untouched, survivors of
      a pitch `delta` apart, every tag justified and every tag counted. */
  lemma {:induction false} PassCorrect(s: seq<Note>, out: seq<Note>, ref: nat, count: nat, delta: int)
    requires PassState(s, out, ref, count, delta)
    ensures var r := Pass(s, out, ref, count, delta);
      && r.0[0] == s[0]
      && (forall k :: 0 <= k < |s| ==> Strip(r.0[k]) == Strip(s[k]))
      && Spaced(r.0, delta) && Justified(r.0, delta)
      && r.1 == TagCount(r.0[1..])
    decreases |s| - |out|
  {
    if |out| < |s| {
      if TooClose(s, out, ref, delta) {
        var out' := out + [Tag(s[|out|])];
        assert Pass(s, out, ref, count, delta) == Pass(s, out', ref, count + 1, delta);
        TagStep(s, out, ref, count, delta);
        PassCorrect(s, out', ref, count + 1, delta);
      } else {
        var out' := out + [Strip(s[|out|])];
        assert Pass(s, out, ref, count, delta) == Pass(s, out', |out|, count, delta);
        KeepStep(s, out, ref, count, delta);
        PassCorrect(s, out', |out|, count, delta);
      }
    } else {
      assert Pass(s, out, ref, count, delta) == (out, count);
    }
  }

  /** `filter_repetition`: the notes in (pitch, tick) order with the tags
      the greedy pass leaves, and the number of tags it set. The source
      reads `self.notes[0]`, so the roll must not be empty. */
  function FilterRepetition(notes: seq<Note>, delta: int): (r: (seq<Note>, nat))
    requires |notes| > 0
    ensures var sorted := ByPitchThenTick(notes);
      && |r.0| == |notes| && r.0[0] == sorted[0]
      && (forall k :: 0 <= k < |notes| ==> Strip(r.0[k]) == Strip(sorted[k]))
    ensures Spaced(r.0, delta) && Justified(r.0, delta)
    ensures r.1 == TagCount(r.0[1..])
  {
    var sorted := ByPitchThenTick(notes);
    assert [sorted[0]][1..] == [];
    assert InPitchTickOrder(sorted);
    assert PassState(sorted, [sorted[0]], 0, 0, delta);
    PassCorrect(sorted, [sorted[0]], 0, 0, delta);
    Pass(sorted, [sorted[0]], 0, 0, delta)
  }

  /** Only the tag changes, so the filtered roll is still in (pitch, tick) order. */
  lemma {:induction false} FilteredSorted(notes: seq<Note>, delta: int)
    requires |notes| > 0
    ensures SortedBy(FilterRepetition(notes, delta).0, PitchTickLe)
  {
    var out, sorted := FilterRepetition(notes, delta).0, ByPitchThenTick(notes);
    forall i, j | 0 <= i < j < |out| ensures PitchTickLe(out[i], out[j]) {
      assert Strip(out[i]) == Strip(sorted[i]) && Strip(out[j]) == Strip(sorted[j]);
    }
  }

  /** The first note of each pitch always survives. */
  lemma {:induction false} GroupHeadKept(out: seq<Note>, delta: int, k: nat)
    requires SortedBy(out, PitchTickLe) && Justified(out, delta)
    requires 0 < k < |out| && out[k - 1].pitch != out[k].pitch
    ensures Kept(out, k)
  {
    forall i | 0 <= i < k
      ensures out[i].pitch != out[k].pitch
    {
      assert PitchTickLe(out[i], out[k - 1]);
    }
  }

  /** A minimum gap of zero or less tags nothing. */
  lemma {:induction false} NonPositiveKeepsAll(out: seq<Note>, delta: int, k: nat)
    requires SortedBy(out, PitchTickLe) && Justified(out, delta) && delta <= 0
    requires k < |out|
    ensures Kept(out, k)
  {
    forall i | 0 <= i < k && out[i].pitch == out[k].pitch
      ensures out[k].tick - out[i].tick >= delta
    {
      assert PitchTickLe(out[i], out[k]);
    }
  }

  /** The pass looks at the notes only through their pitch and tick, and
      overwrites the tag it manages. */
  lemma {:induction false} PassIgnoresTag(s: seq<Note>, t: seq<Note>, out: seq<Note>, ref: nat, count: nat, delta: int)
    requires ref < |out| <= |s| == |t|
    requires forall k :: 0 <= k < |s| ==> Strip(s[k]) == Strip(t[k])
    ensures Pass(s, out, ref, count, delta) == Pass(t, out, ref, count, delta)
    decreases |s| - |out|
  {
    if |out| < |s| {
      var m := |out|;
      assert Strip(s[m]) == Strip(t[m]);
      assert Strip(s[m]).pitch == s[m].pitch && Strip(t[m]).tick == t[m].tick;
      if TooClose(s, out, ref, delta) {
        SameTag(s[m], t[m]);
        PassIgnoresTag(s, t, out + [Tag(s[m])], ref, count + 1, delta);
      } else {
        PassIgnoresTag(s, t, out + [Strip(s[m])], m, count, delta);
      }
    }
  }

  /** Filtering a filtered roll again with the same gap changes nothing and
      sets the same number of tags. */
  lemma {:induction false} FilterIdempotent(notes: seq<Note>, delta: int)
    requires |notes| > 0
    ensures var once := FilterRepetition(notes, delta);
            FilterRepetition(once.0, delta) == once
  {
    var once := FilterRepetition(notes, delta);
    var out := once.0;
    var sorted := ByPitchThenTick(notes);
    assert ByPitchThenTick(out) == out by {
      FilteredSorted(notes, delta);
      PitchTickTotal();
      SortOfSorted(out, PitchTickLe);
    }
    assert [sorted[0]][1..] == [];
    PassIgnoresTag(sorted, out, [sorted[0]], 0, 0, delta);
  }

  /** Between two notes of one pitch at different ticks there is a pair of
      neighbours (in (pitch, tick) order) of that pitch at different ticks,
      no further apart than the two. */
  lemma {:induction false} NeighbourGap(s: seq<Note>, a: nat, b: nat)
    requires InPitchTickOrder(s) && a < b < |s|
    requires s[a].pitch == s[b].pitch && s[a].tick < s[b].tick
    ensures exists k :: a < k <= b && s[k - 1].pitch == s[k].pitch && 0 < s[k].tick - s[k - 1].tick <= s[b].tick - s[a].tick
    decreases b - a
  {
    assert s[a].pitch <= s[b - 1].pitch <= s[b].pitch;
    assert s[a].tick <= s[b - 1].tick <= s[b].tick;
    if s[b - 1].tick < s[b].tick {
      assert b - 1 < b && s[b - 1].pitch == s[b].pitch;
    } else {
      NeighbourGap(s, a, b - 1);
    }
  }

  /** No two notes of one pitch at different ticks are closer than `r`. */
  predicate BelowGaps(notes: seq<Note>, r: int) {
    forall i, j :: 0 <= i < |notes| && 0 <= j < |notes| && notes[i].pitch == notes[j].pitch && notes[i].tick < notes[j].tick ==>
      r <= notes[j].tick - notes[i].tick
  }

  /** Some two notes of one pitch are exactly `r` ticks apart. */
  predicate IsGap(notes: seq<Note>, r: int) {
    exists i, j :: 0 <= i < |notes| && 0 <= j < |notes| && notes[i].pitch == notes[j].pitch && notes[j].tick - notes[i].tick == r
  }

  /** The bound of the loop over neighbours (in (pitch, tick) order) before `k`. */
  predicate BelowNeighbourGaps(s: seq<Note>, r: int, k: nat)
    requires k <= |s|
  {
    forall m :: 1 <= m < k && s[m - 1].pitch == s[m].pitch && s[m - 1].tick < s[m].tick ==> r <= s[m].tick - s[m - 1].tick
  }

  lemma {:induction false} NeighboursBoundAll(notes: seq<Note>, s: seq<Note>, r: int)
    requires InPitchTickOrder(s) && multiset(s) == multiset(notes) && BelowNeighbourGaps(s, r, |s|)
    ensures BelowGaps(notes, r)
  {
    forall i, j | 0 <= i < |notes| && 0 <= j < |notes| && notes[i].pitch == notes[j].pitch && notes[i].tick < notes[j].tick
      ensures r <= notes[j].tick - notes[i].tick
    {
      assert notes[i] in multiset(s) && notes[j] in multiset(s);
      var a :| 0 <= a < |s| && s[a] == notes[i];
      var b :| 0 <= b < |s| && s[b] == notes[j];
      assert a < b;
      NeighbourGap(s, a, b);
    }
  }

  lemma {:induction false} NeighbourIsGap(notes: seq<Note>, s: seq<Note>, m: nat)
    requires multiset(s) == multiset(notes) && 1 <= m < |s| && s[m - 1].pitch == s[m].pitch
    ensures IsGap(notes, s[m].tick - s[m - 1].tick)
  {
    assert s[m - 1] in multiset(notes) && s[m] in multiset(notes);
    var i :| 0 <= i < |notes| && notes[i] == s[m - 1];
    var j :| 0 <= j < |notes| && notes[j] == s[m];
  }

  /** The loop of `min_repetition`: the smallest positive tick distance
      between neighbours of one pitch, and where it was found. */
  method NeighbourMin(s: seq<Note>) returns (r: int, at: nat)
    requires |s| > 0
    ensures 0 < r <= MaxInt && BelowNeighbourGaps(s, r, |s|)
    ensures r < MaxInt ==> 1 <= at < |s| && s[at - 1].pitch == s[at].pitch && s[at].tick - s[at - 1].tick == r
  {
    r, at := MaxInt, 1;
    var k := 1;
    while k < |s|
      invariant 1 <= k <= |s| && 1 <= at <= |s|
      invariant 0 < r <= MaxInt
      invariant BelowNeighbourGaps(s, r, k)
      invariant r < MaxInt ==> at < k && s[at - 1].pitch == s[at].pitch && s[at].tick - s[at - 1].tick == r
    {
      var d := s[k].tick - s[k - 1].tick;
      if s[k].pitch == s[k - 1].pitch && d > 0 && d < r {
        r, at := d, k;
      }
      k := k + 1;
    }
  }

  /** `min_repetition`: the smallest positive tick distance between two
      notes of the same pitch (the `filtered` tags are not looked at), or
      `sys.maxint` when there is none. The source reads `self.notes[0]`, so
      the roll must not be empty. */
  method MinRepetition(notes: seq<Note>) returns (r: int)
    requires |notes| > 0
    ensures 0 < r <= MaxInt
    ensures BelowGaps(notes, r)
    ensures r < MaxInt ==> IsGap(notes, r)
  {
    var s := ByPitchThenTick(notes);
    assert InPitchTickOrder(s);
    var at;
    r, at := NeighbourMin(s);
    NeighboursBoundAll(notes, s, r);
    if r < MaxInt {
      NeighbourIsGap(notes, s, at);
    }
  }
}
