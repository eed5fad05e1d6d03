/**
 The run-length decoder of the recovery font: the top bit of a byte is the
 colour, the rest the length, and a zero byte ends the data.
 */
module FontRle {
  import opened AudioSystem

  function Colour(b: byte): byte { if b >= 0x80 then 255 else 0 }

  function Length(b: byte): nat { b % 0x80 }

  function Run(colour: byte, n: nat): (r: seq<byte>)
    ensures |r| == n
  {
    seq(n, i => colour)
  }

  // ---------------------------------------------------------------- specification

  /** The data in front of the first zero byte. */
  function Body(data: seq<byte>): (r: seq<byte>)
    ensures 0 !in r && r <= data
    ensures 0 in data ==> |r| < |data| && data[|r|] == 0
    decreases |data|
  {
    if data == [] || data[0] == 0 then [] else [data[0]] + Body(data[1..])
  }

  function Pixels(body: seq<byte>): seq<byte>
    decreases |body|
  {
    if body == [] then [] else Run(Colour(body[0]), Length(body[0])) + Pixels(body[1..])
  }

  function TotalLength(body: seq<byte>): nat
    decreases |body|
  {
    if body == [] then 0 else Length(body[0]) + TotalLength(body[1..])
  }

  /** A byte up to 127 is that many pixels of 0, one of 128 + n is n pixels of 255. */
  lemma ByteRuns(n: nat)
    requires 0 < n <= 127
    ensures Pixels([n]) == seq(n, i => 0)
    ensures Pixels([128 + n]) == seq(n, i => 255)
  {
    assert Length(n) == n && Length(128 + n) == n && Colour(n) == 0 && Colour(128 + n) == 255;
    assert [n][1..] == [] && [128 + n][1..] == [];
  }

  lemma {:induction false} PixelsLength(body: seq<byte>)
    ensures |Pixels(body)| == TotalLength(body)
    decreases |body|
  {
    if body != [] {
      PixelsLength(body[1..]);
    }
  }

  lemma EmptyRun()
    ensures Run(Colour(0x80), Length(0x80)) == []
  {
  }

  lemma BodyStep(b: byte, rest: seq<byte>)
    requires b != 0
    ensures Pixels(Body([b] + rest)) == Run(Colour(b), Length(b)) + Pixels(Body(rest))
  {
    assert ([b] + rest)[1..] == rest;
    assert ([b] + Body(rest))[1..] == Body(rest);
  }

  /** A byte that is not zero never ends the data, not even a run of no pixels. */
  lemma {:induction false} EmptyRunIsSkipped(front: seq<byte>, back: seq<byte>)
    requires 0 !in front
    ensures Pixels(Body(front + [0x80] + back)) == Pixels(Body(front + back))
    decreases |front|
  {
    EmptyRun();
    hide *;
    if front == [] {
      BodyStep(0x80, back);
      assert front + [0x80] + back == [0x80] + back && front + back == back;
      assert Run(Colour(0x80), Length(0x80)) + Pixels(Body(back)) == Pixels(Body(back));
    } else {
      EmptyRunIsSkipped(front[1..], back);
      BodyStep(front[0], front[1..] + [0x80] + back);
      BodyStep(front[0], front[1..] + back);
      assert front + [0x80] + back == [front[0]] + (front[1..] + [0x80] + back);
      assert front + back == [front[0]] + (front[1..] + back);
    }
  }

  // -------------------------------------------------------------------- the decoder

  function Span(at: nat, n: nat): seq<nat> {
    seq(n, i requires 0 <= i => at + i)
  }

  /** The indices written by the runs from `at` on, in order. */
  function Writes(body: seq<byte>, at: nat): seq<nat>
    decreases |body|
  {
    if body == [] then [] else Span(at, Length(body[0])) + Writes(body[1..], at + Length(body[0]))
  }

  /** The bitmap with a run stored at an index. */
  function Stored(bits: seq<byte>, at: nat, run: seq<byte>): seq<byte>
    requires at + |run| <= |bits|
  {
    bits[..at] + run + bits[at + |run|..]
  }

  lemma StoredGrows(bits: seq<byte>, at: nat, colour: byte, i: nat)
    requires at + i < |bits|
    ensures Stored(bits, at, Run(colour, i))[at + i := colour] == Stored(bits, at, Run(colour, i + 1))
    ensures Span(at, i) + [at + i] == Span(at, i + 1)
  {
  }

  lemma StoredNothing(bits: seq<byte>, at: nat, colour: byte)
    requires at <= |bits|
    ensures Stored(bits, at, Run(colour, 0)) == bits && Span(at, 0) == []
  {
  }

  /** One run into the bitmap, with the indices it writes. */
  method Fill(bits: array<byte>, at: nat, colour: byte, n: nat) returns (ghost writes: seq<nat>)
    requires at + n <= bits.Length
    modifies bits
    ensures bits[..] == Stored(old(bits[..]), at, Run(colour, n))
    ensures writes == Span(at, n)
  {
    ghost var was := bits[..];
    writes := [];
    var i := 0;
    StoredNothing(was, at, colour);
    while i < n
      invariant 0 <= i <= n
      invariant bits[..] == Stored(was, at, Run(colour, i))
      invariant writes == Span(at, i)
    {
      hide Run, Span, Stored;
      StoredGrows(was, at, colour, i);
      bits[at + i] := colour;
      writes := writes + [at + i];
      i := i + 1;
    }
  }

  /** After the first k runs: the pixels done, in a bitmap that is otherwise as it
      was, and the indices written. */
  ghost predicate Sofar(body: seq<byte>, k: nat, bits: seq<byte>, done: seq<byte>, was: seq<byte>, writes: seq<nat>) {
    && k <= |body|
    && |done| + TotalLength(body[k..]) == TotalLength(body) <= |was|
    && bits == done + was[|done|..]
    && done + Pixels(body[k..]) == Pixels(body)
    && writes + Writes(body[k..], |done|) == Writes(body, 0)
  }

  lemma SofarStarts(body: seq<byte>, was: seq<byte>)
    requires TotalLength(body) <= |was|
    ensures Sofar(body, 0, was, [], was, [])
  {
    hide Pixels, TotalLength, Writes;
    assert body[0..] == body;
  }

  /** The three functions over the first run from k on. */
  lemma OneRun(body: seq<byte>, k: nat, at: nat)
    requires k < |body|
    ensures Pixels(body[k..]) == Run(Colour(body[k]), Length(body[k])) + Pixels(body[k + 1..])
    ensures TotalLength(body[k..]) == Length(body[k]) + TotalLength(body[k + 1..])
    ensures Writes(body[k..], at) == Span(at, Length(body[k])) + Writes(body[k + 1..], at + Length(body[k]))
  {
    hide Run, Colour, Length, Span;
    assert body[k..][1..] == body[k + 1..];
  }

  lemma Regroup<T>(a: seq<T>, b: seq<T>, c: seq<T>)
    ensures a + (b + c) == (a + b) + c
  {
  }

  lemma StoredBehind(done: seq<byte>, was: seq<byte>, run: seq<byte>)
    requires |done| + |run| <= |was|
    ensures Stored(done + was[|done|..], |done|, run) == (done + run) + was[|done + run|..]
  {
  }

  lemma SofarStep(body: seq<byte>, k: nat, bits: seq<byte>, done: seq<byte>, was: seq<byte>, writes: seq<nat>)
    requires Sofar(body, k, bits, done, was, writes) && k < |body|
    ensures var run := Run(Colour(body[k]), Length(body[k]));
            && |done| + |run| <= |bits|
            && Sofar(body, k + 1, Stored(bits, |done|, run), done + run, was, writes + Span(|done|, |run|))
  {
    OneRun(body, k, |done|);
    hide Pixels, TotalLength, Writes, Span, Run, Colour, Length;
    var run, at := Run(Colour(body[k]), Length(body[k])), |done|;
    StoredBehind(done, was, run);
    Regroup(done, run, Pixels(body[k + 1..]));
    Regroup(writes, Span(at, |run|), Writes(body[k + 1..], at + |run|));
  }

  lemma SofarEnds(body: seq<byte>, bits: seq<byte>, done: seq<byte>, was: seq<byte>, writes: seq<nat>)
    requires Sofar(body, |body|, bits, done, was, writes)
    ensures |done| == TotalLength(body) <= |was| && bits == Pixels(body) + was[TotalLength(body)..]
    ensures writes == Writes(body, 0)
  {
    assert body[|body|..] == [];
    assert done + [] == done && writes + [] == writes;
  }

  /** Decodes up to the zero byte. The bitmap has room for all runs. */
  method Decode(data: seq<byte>, bits: array<byte>) returns (input: nat, output: nat, ghost writes: seq<nat>)
    requires 0 in data
    requires TotalLength(Body(data)) <= bits.Length
    modifies bits
    ensures bits[..] == Pixels(Body(data)) + old(bits[TotalLength(Body(data))..])
    ensures input == |Body(data)| + 1 && output == TotalLength(Body(data))
    ensures writes == Writes(Body(data), 0)
  {
    hide Run, Colour, Length, Pixels, TotalLength, Body, Writes, Span, Sofar, Stored;
    ghost var body, was := Body(data), bits[..];
    ghost var done: seq<byte> := [];
    input, output, writes := 0, 0, [];
    SofarStarts(body, was);
    var b := data[input];
    input := input + 1;
    while b != 0
      invariant 0 < input <= |data| && b == data[input - 1]
      invariant input - 1 <= |body| && |done| == output && |bits[..]| == |was|
      invariant Sofar(body, input - 1, bits[..], done, was, writes)
      decreases |data| - input
    {
      assert body[input - 1] == b;
      SofarStep(body, input - 1, bits[..], done, was, writes);
      var n := Length(b);
      var span := Fill(bits, output, Colour(b), n);
      writes := writes + span;
      done := done + Run(Colour(b), n);
      output := output + n;
      b := data[input];
      input := input + 1;
    }
    assert input - 1 == |body|;
    SofarEnds(body, bits[..], done, was, writes);
    assert was[output..] == old(bits[output..]);
  }

  // --------------------------------------------------------------------- bounds

  lemma {:induction false} WritesAre(body: seq<byte>, at: nat)
    ensures Writes(body, at) == Span(at, TotalLength(body))
    decreases |body|
  {
    if body != [] {
      WritesAre(body[1..], at + Length(body[0]));
    }
  }

  lemma BelowExactly(w: seq<nat>, n: nat, bound: nat)
    requires w == Span(0, n)
    ensures (forall i :: i in w ==> i < bound) <==> n <= bound
  {
    assert |w| == n && forall i :: 0 <= i < n ==> w[i] == i;
    if n > 0 {
      assert w[n - 1] == n - 1;
      assert n - 1 in w;
    }
  }

  /** What the decoder writes stays inside a bitmap if and only if its runs add up to at most
      width times height. */
  lemma InsideExactlyWhenShort(data: seq<byte>, width: nat, height: nat)
    ensures (forall i :: i in Writes(Body(data), 0) ==> i < width * height)
            <==> TotalLength(Body(data)) <= width * height
  {
    WritesAre(Body(data), 0);
    hide *;
    BelowExactly(Writes(Body(data), 0), TotalLength(Body(data)), width * height);
  }

  // ------------------------------------------------------------------ the encoder

  predicate IsBitmap(s: seq<byte>) {
    forall i :: 0 <= i < |s| ==> s[i] == 0 || s[i] == 255
  }

  /** How many of the first pixels are alike, at most `most`. */
  function Alike(s: seq<byte>, most: nat): (n: nat)
    requires s != [] && most > 0
    ensures 0 < n <= most && n <= |s| && s[..n] == Run(s[0], n)
    decreases most
  {
    if most == 1 || |s| == 1 || s[1] != s[0] then 1
    else
      var n := Alike(s[1..], most - 1);
      assert s[..n + 1] == [s[0]] + s[1..][..n];
      n + 1
  }

  /** A reference encoder: runs split at 127 pixels, then a zero byte. */
  function Encode(s: seq<byte>): seq<byte>
    requires IsBitmap(s)
    decreases |s|
  {
    if s == [] then [0]
    else
      var n := Alike(s, 127);
      [if s[0] == 255 then 0x80 + n else n] + Encode(s[n..])
  }

  lemma BitmapTail(s: seq<byte>, n: nat)
    requires IsBitmap(s) && n <= |s|
    ensures IsBitmap(s[n..])
  {
  }

  lemma EncodeStep(s: seq<byte>, n: nat, b: byte)
    requires IsBitmap(s) && s != [] && n == Alike(s, 127) && b == if s[0] == 255 then 0x80 + n else n
    ensures Encode(s) == [b] + Encode(s[n..]) && b != 0 && Run(Colour(b), Length(b)) == s[..n]
  {
    assert Colour(b) == s[0] && Length(b) == n;
    hide Alike, Run, Colour, Length;
  }

  lemma EncodeEmpty()
    ensures Encode([]) == [0] && Pixels(Body([0])) == []
  {
  }

  lemma FrontInverts(front: seq<byte>, back: seq<byte>, b: byte, data: seq<byte>)
    requires b != 0 && Run(Colour(b), Length(b)) == front
    requires 0 in data && Pixels(Body(data)) == back
    ensures 0 in [b] + data && Pixels(Body([b] + data)) == front + back
  {
    BodyStep(b, data);
  }

  /** Decoding inverts the encoder for every bitmap. */
  lemma {:induction false} DecodeInvertsEncode(s: seq<byte>)
    requires IsBitmap(s)
    ensures 0 in Encode(s)
    ensures Pixels(Body(Encode(s))) == s
    decreases |s|
  {
    hide *;
    if s == [] {
      EncodeEmpty();
    } else {
      var n := Alike(s, 127);
      var b: byte := if s[0] == 255 then 0x80 + n else n;
      EncodeStep(s, n, b);
      BitmapTail(s, n);
      var front, back := s[..n], s[n..];
      assert s == front + back;
      DecodeInvertsEncode(back);
      FrontInverts(front, back, b, Encode(back));
    }
  }
}
