/** Variable-length quantities (Standard MIDI Files 1.0, "variable-length
    quantity" convention): seven bits per byte, most significant group
    first, the high bit set on every byte but the last. */
module Vlq {
  import opened Wrappers
  import opened Bytes

  const Limit: nat := 0x1000_0000   // 2^28, what four 7-bit groups can hold

  /** Every byte but the last has its high bit set; the last does not. */
  predicate Shaped(s: seq<Byte>) {
    && |s| > 0
    && s[|s| - 1] < 0x80
    && forall i :: 0 <= i < |s| - 1 ==> s[i] >= 0x80
  }

  /** The decoder loop of the importer: while the current byte has its high
      bit set, `acc := (acc + low7) << 7` and move on; the first byte without
      it is added and ends the quantity. Yields the value and the bytes
      after it, or None when the input ends inside the quantity (the source
      raises an IndexError there). */
  function Read(s: seq<Byte>): (r: Option<(nat, seq<Byte>)>)
    ensures r.Some? ==> |r.value.1| < |s|
  {
    ReadFrom(s, 0)
  }

  function ReadFrom(s: seq<Byte>, acc: nat): (r: Option<(nat, seq<Byte>)>)
    ensures r.Some? ==> |r.value.1| < |s|
    decreases |s|
  {
    if |s| == 0 then None
    else if s[0] >= 0x80 then ReadFrom(s[1..], (acc + (s[0] - 0x80)) * 0x80)
    else Some((acc + s[0], s[1..]))
  }

  /** What the loop leaves over is a proper suffix of its input. */
  lemma {:induction false} ReadSuffix(s: seq<Byte>, acc: nat)
    requires ReadFrom(s, acc).Some?
    ensures ReadFrom(s, acc).value.1 == s[|s| - |ReadFrom(s, acc).value.1|..]
    decreases |s|
  {
    if s[0] >= 0x80 {
      ReadSuffix(s[1..], (acc + (s[0] - 0x80)) * 0x80);
      var u := ReadFrom(s, acc).value.1;
      assert s[1..][|s| - 1 - |u|..] == s[|s| - |u|..];
    }
  }

  /** The loop runs off the end of the data (an IndexError in the source)
      exactly when no byte of it lacks the high bit. */
  lemma {:induction false} ReadFails(s: seq<Byte>, acc: nat)
    ensures ReadFrom(s, acc).None? <==> forall i :: 0 <= i < |s| ==> s[i] >= 0x80
    decreases |s|
  {
    if |s| > 0 && s[0] >= 0x80 {
      ReadFails(s[1..], (acc + (s[0] - 0x80)) * 0x80);
      assert forall i :: 1 <= i < |s| ==> s[i] == s[1..][i - 1];
    }
  }

  /** The delta-time encoder of `output_midi`: one byte `0x80 | (dt >> k) & 0x7f`
      for each of k = 21, 14, 7 whose `dt >> k` is non-zero, then `dt & 0x7f`.
      Groups above bit 27 are dropped. */
  function Encode(dt: nat): (r: seq<Byte>)
    ensures 1 <= |r| <= 4 && Shaped(r)
  {
    (if dt / 0x20_0000 != 0 then [0x80 + (dt / 0x20_0000) % 0x80] else [])
    + (if dt / 0x4000 != 0 then [0x80 + (dt / 0x4000) % 0x80] else [])
    + (if dt / 0x80 != 0 then [0x80 + (dt / 0x80) % 0x80] else [])
    + [dt % 0x80]
  }

  /** Dropping seven bits twice drops fourteen. */
  lemma {:induction false} ShiftTwice(x: nat)
    ensures x / 0x4000 == (x / 0x80) / 0x80
  {
    var q := x / 0x80;
    assert x == (q / 0x80) * 0x4000 + (q % 0x80) * 0x80 + x % 0x80;
  }

  /** Splits a value into its low 28 bits, four groups of seven. */
  lemma {:induction false} LowGroups(x: nat)
    ensures x % Limit
         == ((((x / 0x80 / 0x80 / 0x80) % 0x80 * 0x80 + (x / 0x80 / 0x80) % 0x80) * 0x80
             + (x / 0x80) % 0x80) * 0x80 + x % 0x80)
  {
    var x1 := x / 0x80;
    var x2 := x1 / 0x80;
    var x3 := x2 / 0x80;
    var x4 := x3 / 0x80;
    assert x3 == x4 * 0x80 + x3 % 0x80;
    assert x2 == x3 * 0x80 + x2 % 0x80;
    assert x1 == x2 * 0x80 + x1 % 0x80;
    assert x == x1 * 0x80 + x % 0x80;
    var low := (((x3 % 0x80) * 0x80 + x2 % 0x80) * 0x80 + x1 % 0x80) * 0x80 + x % 0x80;
    assert x == x4 * Limit + low;
  }

  lemma {:induction false} Digits(dt: nat)
    ensures dt / 0x4000 == (dt / 0x80) / 0x80
    ensures dt / 0x20_0000 == ((dt / 0x80) / 0x80) / 0x80
    ensures dt % Limit
         == (((((dt / 0x20_0000) % 0x80) * 0x80 + (dt / 0x4000) % 0x80) * 0x80
             + (dt / 0x80) % 0x80) * 0x80 + dt % 0x80)
  {
    ShiftTwice(dt);
    ShiftTwice(dt / 0x80);
    assert dt / 0x20_0000 == (dt / 0x80) / 0x4000 by {
      var q := dt / 0x80;
      assert dt == (q / 0x4000) * 0x20_0000 + (q % 0x4000) * 0x80 + dt % 0x80;
    }
    LowGroups(dt);
  }

  /** The value the decoder loop accumulates over a well-formed quantity,
      starting from `acc`. */
  function Accumulate(s: seq<Byte>, acc: nat): nat
    requires |s| > 0
    decreases |s|
  {
    if |s| == 1 then acc + s[0] % 0x80 else Accumulate(s[1..], (acc + s[0] % 0x80) * 0x80)
  }

  /** Reading a well-formed quantity consumes exactly its bytes. */
  lemma {:induction false} ReadShaped(s: seq<Byte>, rest: seq<Byte>, acc: nat)
    requires Shaped(s)
    ensures ReadFrom(s + rest, acc) == Some((Accumulate(s, acc), rest))
    decreases |s|
  {
    var u := s + rest;
    if |s| == 1 {
      assert u[1..] == rest;
    } else {
      assert u[1..] == s[1..] + rest;
      ReadShaped(s[1..], rest, (acc + s[0] % 0x80) * 0x80);
    }
  }

  /** The encoder's bytes accumulate to the delta time modulo 2^28. */
  lemma {:induction false} EncodedValue(dt: nat)
    ensures Accumulate(Encode(dt), 0) == dt % Limit
  {
    Digits(dt);
    if dt / 0x20_0000 != 0 {
      EncodedFour(dt);
    } else if dt / 0x4000 != 0 {
      EncodedThree(dt);
    } else if dt / 0x80 != 0 {
      var e := Encode(dt);
      assert e == [0x80 + (dt / 0x80) % 0x80, dt % 0x80];
      assert e[1..] == [dt % 0x80];
    } else {
      assert Encode(dt) == [dt % 0x80];
    }
  }

  /** The loop over three and four bytes, written out. */
  lemma {:induction false} AccumulateThree(x: Byte, y: Byte, z: Byte, acc: nat)
    ensures Accumulate([x, y, z], acc) == ((acc + x % 0x80) * 0x80 + y % 0x80) * 0x80 + z % 0x80
  {
    var acc1 := (acc + x % 0x80) * 0x80;
    assert [x, y, z][1..] == [y, z] && [y, z][1..] == [z];
    assert Accumulate([x, y, z], acc) == Accumulate([y, z], acc1);
    assert Accumulate([y, z], acc1) == Accumulate([z], (acc1 + y % 0x80) * 0x80);
  }

  lemma {:induction false} AccumulateFour(w: Byte, x: Byte, y: Byte, z: Byte)
    ensures Accumulate([w, x, y, z], 0) == (((w % 0x80) * 0x80 + x % 0x80) * 0x80 + y % 0x80) * 0x80 + z % 0x80
  {
    assert [w, x, y, z][1..] == [x, y, z];
    AccumulateThree(x, y, z, (w % 0x80) * 0x80);
  }

  lemma {:induction false} EncodedFour(dt: nat)
    requires dt / 0x20_0000 != 0
    ensures Accumulate(Encode(dt), 0) == dt % Limit
  {
    Digits(dt);
    var a, b, c, d := dt % 0x80, (dt / 0x80) % 0x80, (dt / 0x4000) % 0x80, (dt / 0x20_0000) % 0x80;
    assert Encode(dt) == [0x80 + d, 0x80 + c, 0x80 + b, a];
    AccumulateFour(0x80 + d, 0x80 + c, 0x80 + b, a);
    assert (0x80 + d) % 0x80 == d && (0x80 + c) % 0x80 == c && (0x80 + b) % 0x80 == b && a % 0x80 == a;
  }

  lemma {:induction false} EncodedThree(dt: nat)
    requires dt / 0x20_0000 == 0 && dt / 0x4000 != 0
    ensures Accumulate(Encode(dt), 0) == dt % Limit
  {
    Digits(dt);
    var a, b, c := dt % 0x80, (dt / 0x80) % 0x80, (dt / 0x4000) % 0x80;
    assert Encode(dt) == [0x80 + c, 0x80 + b, a];
    AccumulateThree(0x80 + c, 0x80 + b, a, 0);
    assert (0x80 + c) % 0x80 == c && (0x80 + b) % 0x80 == b && a % 0x80 == a;
  }

  /** Decoding what the encoder wrote gives back the delta time modulo 2^28,
      so exactly the delta time below 2^28. */
  lemma {:induction false} RoundTrip(dt: nat, rest: seq<Byte>)
    ensures Read(Encode(dt) + rest) == Some((dt % Limit, rest))
    ensures dt < Limit ==> Read(Encode(dt) + rest) == Some((dt, rest))
  {
    ReadShaped(Encode(dt), rest, 0);
    EncodedValue(dt);
  }
}
