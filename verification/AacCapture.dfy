/**
 AAC capture: the caller's buffer gets a marker, a frame count and then frames,
 each behind its 16-bit size. The driver's answers come from an oracle.
 */
module AacCapture {
  import opened AudioSystem
  import opened Wrappers

  /** One answer to read(2); no bytes is the end of the data. */
  datatype Answer = Bytes(data: seq<byte>) | Again | Error

  type Oracle = nat -> Answer

  // ------------------------------------------------------------- specification

  /** 16 bits, low byte first; larger values are truncated by the store. */
  function Low16(n: nat): (r: seq<byte>)
    ensures |r| == 2
  {
    [n % 0x100, n / 0x100 % 0x100]
  }

  function Value16(b: seq<byte>): nat
    requires |b| >= 2
  {
    var lo: int := b[0];
    var hi: int := b[1];
    lo + 0x100 * hi
  }

  lemma Value16OfLow16(n: nat)
    ensures Value16(Low16(n)) == n % 0x10000
  {
    var q, r := n / 0x10000, n % 0x10000;
    var hi, lo := r / 0x100, r % 0x100;
    assert n == 0x100 * (0x100 * q + hi) + lo;
    assert n / 0x100 == 0x100 * q + hi;
  }

  /** Reading one sized frame off the front. */
  lemma FrameAtFront(d: seq<byte>, tail: seq<byte>)
    requires |d| <= 0xFFFF
    ensures var b := Low16(|d|) + d + tail;
            && |b| >= 2 && Value16(b) == |d| && |b| >= 2 + |d|
            && b[2..2 + |d|] == d && b[2 + |d|..] == tail
  {
    Value16OfLow16(|d|);
    var b := Low16(|d|) + d + tail;
    assert b[0] == Low16(|d|)[0] && b[1] == Low16(|d|)[1];
  }

  /** 0x51434F4D in memory. */
  const MARKER: seq<byte> := [0x4d, 0x4f, 0x43, 0x51]

  const HEADER := 6

  /** What one pass through the loop leaves in the buffer: a frame, or two bytes
      skipped when the driver said EAGAIN. */
  datatype Item = Frame(data: seq<byte>) | Gap

  function Size(item: Item): nat {
    if item.Frame? then 2 + |item.data| else 2
  }

  function Total(items: seq<Item>): nat
    decreases |items|
  {
    if items == [] then 0 else Size(items[0]) + Total(items[1..])
  }

  datatype Stop = Full | EndOfData | OneFrame | Failed

  datatype Capture = Capture(items: seq<Item>, tick: nat, stop: Stop)

  function Min(a: nat, b: nat): nat { if a < b then a else b }

  /** The loop with `count` bytes left. The first chunk ever read ends the call. */
  function Loop(o: Oracle, tick: nat, count: nat, readBefore: bool): (c: Capture)
    ensures Total(c.items) <= count
    ensures forall i :: 0 <= i < |c.items| && c.items[i].Frame? ==> c.items[i].data != []
    decreases count
  {
    if count <= 2 then Capture([], tick, Full)
    else
      match o(tick)
      case Error => Capture([], tick + 1, Failed)
      case Again =>
        var r := Loop(o, tick + 1, count - 2, readBefore);
        r.(items := [Gap] + r.items)
      case Bytes(d) =>
        var got := d[..Min(|d|, count - 2)];
        if got == [] then Capture([], tick + 1, EndOfData)
        else if !readBefore then Capture([Frame(got)], tick + 1, OneFrame)
        else
          var r := Loop(o, tick + 1, count - 2 - |got|, true);
          r.(items := [Frame(got)] + r.items)
  }

  /** One pass of the loop, by the length of what was read. */
  lemma Unfold(o: Oracle, tick: nat, count: nat, readBefore: bool)
    ensures count <= 2 ==> Loop(o, tick, count, readBefore) == Capture([], tick, Full)
    ensures count > 2 ==>
              var c := Loop(o, tick, count, readBefore);
              var got := if o(tick).Bytes? then o(tick).data[..Min(|o(tick).data|, count - 2)] else [];
              if got != [] then
                c == (var next := if readBefore then Loop(o, tick + 1, count - 2 - |got|, true) else Capture([], tick + 1, OneFrame);
                      next.(items := [Frame(got)] + next.items))
              else if o(tick).Again? then
                c == (var next := Loop(o, tick + 1, count - 2, readBefore);
                      next.(items := [Gap] + next.items))
              else c == Capture([], tick + 1, if o(tick).Error? then Failed else EndOfData)
  {
  }

  function Chunks(items: seq<Item>): seq<seq<byte>>
    decreases |items|
  {
    if items == [] then []
    else if items[0].Frame? then [items[0].data] + Chunks(items[1..]) else Chunks(items[1..])
  }

  /** The items laid over the old contents. */
  function Laid(items: seq<Item>, before: seq<byte>): (r: seq<byte>)
    requires Total(items) <= |before|
    ensures |r| == |before|
    decreases |items|
  {
    if items == [] then before
    else
      match items[0]
      case Gap => before[..2] + Laid(items[1..], before[2..])
      case Frame(d) => Low16(|d|) + d + Laid(items[1..], before[2 + |d|..])
  }

  function Image(items: seq<Item>, before: seq<byte>): seq<byte>
    requires HEADER + Total(items) <= |before|
  {
    MARKER + Low16(|Chunks(items)|) + Laid(items, before[HEADER..])
  }

  // ------------------------------------------------------------------- decoding

  function Frames(b: seq<byte>, n: nat): Option<seq<seq<byte>>>
    decreases n
  {
    if n == 0 then Some([])
    else if |b| < 2 || |b| < 2 + Value16(b) then None
    else
      var rest := Frames(b[2 + Value16(b)..], n - 1);
      if rest.None? then None else Some([b[2..2 + Value16(b)]] + rest.value)
  }

  /** A reader of the format: marker, count, then that many sized frames. */
  function Decode(b: seq<byte>): Option<seq<seq<byte>>> {
    if |b| < HEADER || b[..4] != MARKER then None else Frames(b[HEADER..], Value16(b[4..6]))
  }

  /** No bytes skipped in front of a frame. */
  predicate NoGapBeforeFrame(items: seq<Item>) {
    forall i, j :: 0 <= i < j < |items| && items[i].Gap? ==> items[j].Gap?
  }

  /** The largest request all of whose chunk sizes fit the 16-bit field. */
  const LARGEST := HEADER + 2 + 0xFFFF

  lemma {:induction false} ChunksFit(items: seq<Item>)
    requires forall i :: 0 <= i < |items| && items[i].Frame? ==> items[i].data != []
    ensures 3 * |Chunks(items)| <= Total(items)
    decreases |items|
  {
    if items != [] {
      assert forall i :: 0 <= i < |items[1..]| ==> items[1..][i] == items[i + 1];
      ChunksFit(items[1..]);
    }
  }

  lemma {:induction false} GapsHaveNoChunks(items: seq<Item>)
    requires forall i :: 0 <= i < |items| ==> items[i].Gap?
    ensures Chunks(items) == []
    decreases |items|
  {
    if items != [] {
      GapsHaveNoChunks(items[1..]);
    }
  }

  lemma {:induction false} HasChunk(items: seq<Item>, j: nat)
    requires j < |items| && items[j].Frame?
    ensures Chunks(items) != []
    decreases |items|
  {
    if j > 0 {
      HasChunk(items[1..], j - 1);
    }
  }

  function Behind(d: seq<byte>, rest: Option<seq<seq<byte>>>): Option<seq<seq<byte>>> {
    if rest.None? then None else Some([d] + rest.value)
  }

  /** The reader over one frame. */
  lemma FramesStep(d: seq<byte>, tail: seq<byte>, n: nat)
    requires |d| <= 0xFFFF
    ensures Frames(Low16(|d|) + d + tail, n + 1) == Behind(d, Frames(tail, n))
  {
    FrameAtFront(d, tail);
    hide Value16, Low16;
  }

  lemma SameBehind(d: seq<byte>, rest: Option<seq<seq<byte>>>, chunks: seq<seq<byte>>)
    ensures Behind(d, rest) == Some([d] + chunks) <==> rest == Some(chunks)
  {
    assert rest.Some? ==> ([d] + rest.value)[1..] == rest.value;
    assert ([d] + chunks)[1..] == chunks;
  }

  /** Without gaps in front of frames, reading the frames back gives the chunks. */
  lemma {:induction false} FramesOfLaid(items: seq<Item>, before: seq<byte>)
    requires Total(items) <= |before| <= LARGEST - HEADER
    requires NoGapBeforeFrame(items)
    ensures Frames(Laid(items, before), |Chunks(items)|) == Some(Chunks(items))
    decreases |items|
  {
    hide Value16, Low16;
    if items != [] {
      if items[0].Gap? {
        assert forall i :: 0 <= i < |items| ==> items[i].Gap?;
        GapsHaveNoChunks(items);
      } else {
        var d := items[0].data;
        var tail := Laid(items[1..], before[2 + |d|..]);
        assert forall k :: 0 <= k < |items[1..]| ==> items[1..][k] == items[k + 1];
        FramesOfLaid(items[1..], before[2 + |d|..]);
        FramesStep(d, tail, |Chunks(items[1..])|);
      }
    }
  }

  lemma {:induction false} FirstChunkIsShort(items: seq<Item>, j: nat)
    requires j < |items| && items[j].Frame?
    ensures Chunks(items) != [] && 2 + |Chunks(items)[0]| <= Total(items)
    decreases |items|
  {
    if !items[0].Frame? {
      FirstChunkIsShort(items[1..], j - 1);
    }
  }

  lemma GapInFront(items: seq<Item>, j: nat, before: seq<byte>)
    requires Total(items) <= |before| <= LARGEST - HEADER
    requires 0 < j < |items| && items[0].Gap? && items[j].Frame?
    requires before[0] == before[1] == 0xFF
    ensures Frames(Laid(items, before), |Chunks(items)|) != Some(Chunks(items))
  {
    var b := Laid(items, before);
    assert b[0] == before[0] && b[1] == before[1];
    assert Value16(b) == 0xFFFF;
    FirstChunkIsShort(items[1..], j - 1);
    assert Chunks(items) == Chunks(items[1..]);
    hide Value16, Laid, Total;
    var r := Frames(b, |Chunks(items)|);
    assert r.Some? ==> |r.value[0]| == 0xFFFF;
  }

  lemma FrameInFront(items: seq<Item>, before: seq<byte>)
    requires Total(items) <= |before| <= LARGEST - HEADER
    requires items != [] && items[0].Frame?
    requires var rest := before[2 + |items[0].data|..];
             Frames(Laid(items[1..], rest), |Chunks(items[1..])|) != Some(Chunks(items[1..]))
    ensures Frames(Laid(items, before), |Chunks(items)|) != Some(Chunks(items))
  {
    var d := items[0].data;
    var tail := Laid(items[1..], before[2 + |d|..]);
    assert Laid(items, before) == Low16(|d|) + d + tail;
    assert Chunks(items) == [d] + Chunks(items[1..]);
    assert |d| <= 0xFFFF;
    hide Frames, Laid, Low16, Chunks, Total;
    FramesStep(d, tail, |Chunks(items[1..])|);
    SameBehind(d, Frames(tail, |Chunks(items[1..])|), Chunks(items[1..]));
  }

  /** Old contents under which a gap in front of a frame misleads every reader. */
  lemma {:induction false} GapMisleads(items: seq<Item>, before: seq<byte>)
    requires Total(items) <= |before| <= LARGEST - HEADER
    requires !NoGapBeforeFrame(items)
    requires forall i :: 0 <= i < |before| ==> before[i] == 0xFF
    ensures Frames(Laid(items, before), |Chunks(items)|) != Some(Chunks(items))
    decreases |items|
  {
    var i, j :| 0 <= i < j < |items| && items[i].Gap? && items[j].Frame?;
    if items[0].Gap? {
      GapInFront(items, j, before);
    } else {
      var d := items[0].data;
      var rest := before[2 + |d|..];
      assert items[1..][i - 1].Gap? && items[1..][j - 1].Frame?;
      GapMisleads(items[1..], rest);
      FrameInFront(items, before);
    }
  }

  // ----------------------------------------------------------------- main results

  /** What a call with this request leaves in a buffer that held `before`. */
  function Result(o: Oracle, tick: nat, readBefore: bool, before: seq<byte>): seq<byte>
    requires |before| >= HEADER
  {
    Image(Loop(o, tick, |before| - HEADER, readBefore).items, before)
  }

  /** The bytes the driver handed over, chunk by chunk. */
  function Received(o: Oracle, tick: nat, request: nat, readBefore: bool): seq<seq<byte>>
    requires request >= HEADER
  {
    Chunks(Loop(o, tick, request - HEADER, readBefore).items)
  }

  lemma HeaderParts(marker: seq<byte>, n: seq<byte>, rest: seq<byte>)
    requires |marker| == 4 && |n| == 2
    ensures var b := marker + n + rest;
            |b| >= HEADER && b[..4] == marker && b[4..6] == n && b[HEADER..] == rest
  {
  }

  /** The buffer begins with the letters MOCQ and the number of chunks, low byte first. */
  lemma HeaderBytes(items: seq<Item>, before: seq<byte>)
    requires HEADER + Total(items) <= |before|
    ensures var b, n := Image(items, before), |Chunks(items)|;
            && |b| >= 6 && b[0] == 0x4d && b[1] == 0x4f && b[2] == 0x43 && b[3] == 0x51
            && b[4] == n % 256 && b[5] == n / 256 % 256
  {
    hide Laid, Total, Chunks;
  }

  /** A frame begins with its size, low byte first. */
  lemma FrameBytes(d: seq<byte>, items: seq<Item>, before: seq<byte>)
    requires Total([Frame(d)] + items) <= |before|
    ensures var b := Laid([Frame(d)] + items, before);
            && |b| >= 2 + |d| && b[0] == |d| % 256 && b[1] == |d| / 256 % 256 && b[2..2 + |d|] == d
  {
    assert ([Frame(d)] + items)[1..] == items;
  }

  lemma HeaderDecodes(n: nat, rest: seq<byte>)
    requires n < 0x10000
    ensures Decode(MARKER + Low16(n) + rest) == Frames(rest, n)
  {
    var b := MARKER + Low16(n) + rest;
    HeaderParts(MARKER, Low16(n), rest);
    assert Value16(b[4..6]) == n by { Value16OfLow16(n); }
    hide Low16, Value16, Frames;
    assert Decode(b) == Frames(b[HEADER..], Value16(b[4..6]));
  }

  lemma ImageFields(items: seq<Item>, before: seq<byte>)
    requires HEADER + Total(items) <= |before| <= LARGEST
    requires forall i :: 0 <= i < |items| && items[i].Frame? ==> items[i].data != []
    ensures Decode(Image(items, before)) == Frames(Laid(items, before[HEADER..]), |Chunks(items)|)
  {
    ChunksFit(items);
    var n := |Chunks(items)|;
    var laid := Laid(items, before[HEADER..]);
    HeaderDecodes(n, laid);
  }

  /** Item i of a call is what answer i of its driver makes of it. */
  lemma {:induction false} ItemsAreAnswers(o: Oracle, tick: nat, count: nat, readBefore: bool, i: nat)
    requires i < |Loop(o, tick, count, readBefore).items|
    ensures var item := Loop(o, tick, count, readBefore).items[i];
            && (item.Gap? <==> o(tick + i).Again?)
            && (item.Frame? <==> o(tick + i).Bytes? && o(tick + i).data != [])
    decreases count
  {
    Unfold(o, tick, count, readBefore);
    hide Loop;
    if i > 0 {
      var got := if o(tick).Bytes? then o(tick).data[..Min(|o(tick).data|, count - 2)] else [];
      if got != [] {
        ItemsAreAnswers(o, tick + 1, count - 2 - |got|, readBefore, i - 1);
      } else {
        ItemsAreAnswers(o, tick + 1, count - 2, readBefore, i - 1);
      }
    }
  }

  /** A call asks for one answer for each item, and perhaps for one more that ends it. */
  lemma {:induction false} AnswersAskedFor(o: Oracle, tick: nat, count: nat, readBefore: bool)
    ensures var c := Loop(o, tick, count, readBefore);
            var used := tick + |c.items|;
            && (c.tick == used || (c.tick == used + 1 && !o(used).Again? && (o(used).Bytes? ==> o(used).data == [])))
    decreases count
  {
    Unfold(o, tick, count, readBefore);
    hide Loop;
    if count > 2 {
      var got := if o(tick).Bytes? then o(tick).data[..Min(|o(tick).data|, count - 2)] else [];
      if got != [] {
        AnswersAskedFor(o, tick + 1, count - 2 - |got|, true);
      } else if o(tick).Again? {
        AnswersAskedFor(o, tick + 1, count - 2, readBefore);
      }
    }
  }

  /** A chunk is the front of the driver's answer, and all of it unless it fills the
      room left. */
  lemma {:induction false} ChunksAreAnswers(o: Oracle, tick: nat, count: nat, readBefore: bool, i: nat)
    requires i < |Loop(o, tick, count, readBefore).items| && Loop(o, tick, count, readBefore).items[i].Frame?
    ensures var items := Loop(o, tick, count, readBefore).items;
            var d := items[i].data;
            && o(tick + i).Bytes? && d <= o(tick + i).data
            && (d == o(tick + i).data || Total(items[..i]) + 2 + |d| == count)
    decreases count
  {
    Unfold(o, tick, count, readBefore);
    var items := Loop(o, tick, count, readBefore).items;
    hide Loop;
    var got := if o(tick).Bytes? then o(tick).data[..Min(|o(tick).data|, count - 2)] else [];
    if i == 0 {
      assert items[..0] == [];
    } else {
      assert items[..i][1..] == items[1..][..i - 1];
      if got != [] {
        ChunksAreAnswers(o, tick + 1, count - 2 - |got|, true, i - 1);
      } else {
        ChunksAreAnswers(o, tick + 1, count - 2, readBefore, i - 1);
      }
    }
  }

  /** Why a call ends: no room for a size and a byte, an end of the data, an error, or
      the first chunk of all; a chunk ends a call exactly when none was read before. */
  lemma {:induction false} WhyItEnds(o: Oracle, tick: nat, count: nat, readBefore: bool)
    ensures var c := Loop(o, tick, count, readBefore);
            var n := |c.items|;
            && (c.stop.Full? ==> count <= Total(c.items) + 2)
            && (c.stop.EndOfData? ==> o(tick + n).Bytes? && o(tick + n).data == [])
            && (c.stop.Failed? <==> c.tick > tick + n && o(tick + n).Error?)
            && (c.stop.OneFrame? <==> !readBefore && n > 0 && c.items[n - 1].Frame?)
            && (!readBefore ==> forall k :: 0 <= k < n - 1 ==> c.items[k].Gap?)
    decreases count
  {
    Unfold(o, tick, count, readBefore);
    hide Loop;
    if count > 2 {
      var got := if o(tick).Bytes? then o(tick).data[..Min(|o(tick).data|, count - 2)] else [];
      if got != [] {
        WhyItEnds(o, tick + 1, count - 2 - |got|, true);
      } else if o(tick).Again? {
        WhyItEnds(o, tick + 1, count - 2, readBefore);
      }
    }
  }

  /** Among the answers of one call no EAGAIN comes before a chunk. */
  ghost predicate NoAgainBeforeChunk(o: Oracle, from: nat, to: nat) {
    forall i, j :: from <= i < j < to && o(i).Again? ==> !(o(j).Bytes? && o(j).data != [])
  }

  lemma GapsAreAgains(o: Oracle, tick: nat, count: nat, readBefore: bool)
    ensures var c := Loop(o, tick, count, readBefore);
            NoGapBeforeFrame(c.items) <==> NoAgainBeforeChunk(o, tick, c.tick)
  {
    hide Loop;
    var c := Loop(o, tick, count, readBefore);
    forall i: nat | i < |c.items|
      ensures c.items[i].Gap? <==> o(tick + i).Again?
      ensures c.items[i].Frame? <==> o(tick + i).Bytes? && o(tick + i).data != []
    {
      ItemsAreAnswers(o, tick, count, readBefore, i);
    }
    AnswersAskedFor(o, tick, count, readBefore);
    if NoGapBeforeFrame(c.items) {
      forall i, j | tick <= i < j < c.tick && o(i).Again?
        ensures !(o(j).Bytes? && o(j).data != [])
      {
        assert i - tick < |c.items| && c.items[i - tick].Gap?;
        assert j - tick < |c.items| ==> c.items[j - tick].Gap?;
      }
    } else {
      var i, j :| 0 <= i < j < |c.items| && c.items[i].Gap? && !c.items[j].Gap?;
      assert o(tick + i).Again? && o(tick + j).Bytes? && o(tick + j).data != [];
    }
  }

  lemma GapFreeDecodes(o: Oracle, tick: nat, readBefore: bool, before: seq<byte>)
    requires HEADER <= |before| <= LARGEST
    requires NoGapBeforeFrame(Loop(o, tick, |before| - HEADER, readBefore).items)
    ensures Decode(Result(o, tick, readBefore, before)) == Some(Received(o, tick, |before|, readBefore))
  {
    hide Loop, Decode, Image, Laid, Frames;
    var items := Loop(o, tick, |before| - HEADER, readBefore).items;
    ImageFields(items, before);
    FramesOfLaid(items, before[HEADER..]);
  }

  lemma GapFails(o: Oracle, tick: nat, readBefore: bool, before: seq<byte>)
    requires HEADER <= |before| <= LARGEST && forall i :: 0 <= i < |before| ==> before[i] == 0xFF
    requires !NoGapBeforeFrame(Loop(o, tick, |before| - HEADER, readBefore).items)
    ensures Decode(Result(o, tick, readBefore, before)) != Some(Received(o, tick, |before|, readBefore))
  {
    hide Loop, Decode, Image, Laid, Frames, NoGapBeforeFrame;
    var items := Loop(o, tick, |before| - HEADER, readBefore).items;
    ImageFields(items, before);
    GapMisleads(items, before[HEADER..]);
  }

  /** A reader recovers exactly the driver's chunks, whatever the buffer held before. */
  ghost predicate DecodesAlways(o: Oracle, tick: nat, request: nat, readBefore: bool)
    requires request >= HEADER
  {
    forall before: seq<byte> :: |before| == request ==>
      Decode(Result(o, tick, readBefore, before)) == Some(Received(o, tick, request, readBefore))
  }

  lemma GapFreeDecodesAlways(o: Oracle, tick: nat, request: nat, readBefore: bool)
    requires HEADER <= request <= LARGEST
    requires NoGapBeforeFrame(Loop(o, tick, request - HEADER, readBefore).items)
    ensures DecodesAlways(o, tick, request, readBefore)
  {
    hide Loop, Decode, Image, Result, Received, NoGapBeforeFrame;
    forall before: seq<byte> | |before| == request
      ensures Decode(Result(o, tick, readBefore, before)) == Some(Received(o, tick, request, readBefore))
    {
      GapFreeDecodes(o, tick, readBefore, before);
    }
  }

  /** With a gap, a buffer of 0xFF misleads the reader. */
  lemma GapFailsSome(o: Oracle, tick: nat, request: nat, readBefore: bool)
    requires HEADER <= request <= LARGEST
    requires !NoGapBeforeFrame(Loop(o, tick, request - HEADER, readBefore).items)
    ensures !DecodesAlways(o, tick, request, readBefore)
  {
    hide Loop, Decode, Image, Result, Received, NoGapBeforeFrame;
    var filled := seq(request, i => 0xFF);
    assert |filled| == request;
    GapFails(o, tick, readBefore, filled);
  }

  /** For every request whose sizes fit 16 bits, decoding always works if and only if
      among the answers the call asked for no EAGAIN came before a chunk. */
  lemma DecodesExactlyWithoutGaps(o: Oracle, tick: nat, request: nat, readBefore: bool)
    requires HEADER <= request <= LARGEST
    ensures NoAgainBeforeChunk(o, tick, Loop(o, tick, request - HEADER, readBefore).tick)
            <==> DecodesAlways(o, tick, request, readBefore)
  {
    GapsAreAgains(o, tick, request - HEADER, readBefore);
    hide Loop, DecodesAlways, NoGapBeforeFrame, NoAgainBeforeChunk;
    if NoGapBeforeFrame(Loop(o, tick, request - HEADER, readBefore).items) {
      GapFreeDecodesAlways(o, tick, request, readBefore);
    } else {
      GapFailsSome(o, tick, request, readBefore);
    }
  }

  /** The other case happens: EAGAIN, then one byte, in a buffer of 0xFF. */
  lemma AgainThenChunkMisleads()
    ensures var o: Oracle := n => if n == 0 then Again else Bytes([7]);
            var before: seq<byte> := seq(16, i => 0xFF);
            && Received(o, 0, 16, false) == [[7]]
            && Decode(Result(o, 0, false, before)) != Some([[7]])
  {
    var o: Oracle := n => if n == 0 then Again else Bytes([7]);
    var before: seq<byte> := seq(16, i => 0xFF);
    var items: seq<Item> := [Gap, Frame([7])];
    Unfold(o, 1, 8, false);
    assert [7][..1] == [7];
    assert Loop(o, 1, 8, false).items == [Frame([7])] + [];
    Unfold(o, 0, 10, false);
    assert Loop(o, 0, 10, false).items == [Gap] + [Frame([7])] == items;
    assert items[1..] == [Frame([7])] && items[1..][1..] == [];
    hide Loop, Decode, Image;
    assert Chunks(items) == [[7]];
    assert items[0].Gap? && items[1].Frame?;
    ImageFields(items, before);
    GapMisleads(items, before[HEADER..]);
  }

  /** The size of 2^16 bytes reads as none. */
  lemma OneLongChunk(d: seq<byte>, room: seq<byte>)
    requires |d| == 0x10000 && |room| >= 2 + |d|
    ensures Frames(Low16(|d|) + d + room[2 + |d|..], 1) != Some([d])
  {
    Value16OfLow16(|d|);
    var body := Low16(|d|) + d + room[2 + |d|..];
    assert body[0] == Low16(|d|)[0] && body[1] == Low16(|d|)[1];
    assert Value16(body) == 0;
    assert |body[2..2 + Value16(body)]| == 0;
    hide Low16, Value16;
    assert Frames(body, 1).Some? ==> |Frames(body, 1).value[0]| == 0;
  }

  /** Past the largest request one chunk is enough to lose: its size is cut to 16 bits. */
  lemma LargerRequestsLose(o: Oracle, tick: nat, before: seq<byte>, readBefore: bool)
    requires |before| > LARGEST
    requires o(tick).Bytes? && |o(tick).data| == 0x10000
    requires readBefore ==> o(tick + 1) == Bytes([])
    ensures Decode(Result(o, tick, readBefore, before)) != Some(Received(o, tick, |before|, readBefore))
  {
    var d := o(tick).data;
    var count := |before| - HEADER;
    assert d[..Min(|d|, count - 2)] == d;
    var items := Loop(o, tick, count, readBefore).items;
    assert readBefore ==> o(tick + 1).data == [];
    assert readBefore ==> Loop(o, tick + 1, count - 2 - |d|, true).items == [];
    assert items == [Frame(d)];
    assert items[1..] == [] && Chunks(items) == [d];
    hide Loop;
    OneLongChunk(d, before[HEADER..]);
    HeaderDecodes(1, Low16(|d|) + d + before[HEADER..][2 + |d|..]);
    hide Low16, Frames, Decode;
    assert Laid(items, before[HEADER..]) == Low16(|d|) + d + before[HEADER..][2 + |d|..];
  }

  /** For every driver that never answers EAGAIN and every request whose sizes fit,
      reading the buffer back gives the driver's chunks, whatever it held before. */
  lemma ReadsBack(o: Oracle, tick: nat, before: seq<byte>, readBefore: bool)
    requires HEADER <= |before| <= LARGEST
    requires forall n :: !o(n).Again?
    ensures Decode(Result(o, tick, readBefore, before)) == Some(Received(o, tick, |before|, readBefore))
  {
    hide Loop, Decode, Image;
    DecodesExactlyWithoutGaps(o, tick, |before|, readBefore);
  }

  // ------------------------------------------------------------------- what is stored

  /** The bytes left for frames: the header's share is taken off an unsigned count
      of 32 bits. */
  function Room(request: nat): nat {
    (request - HEADER) % 0x1_0000_0000
  }

  /** Whether the items, laid from one index on, store at another. Nothing is stored
      in the bytes skipped. */
  predicate ItemStores(items: seq<Item>, at: nat, i: nat)
    decreases |items|
  {
    items != [] &&
      ((items[0].Frame? && at <= i < at + Size(items[0])) || ItemStores(items[1..], at + Size(items[0]), i))
  }

  /** Whether a call stores at an index: the marker and the frame count, then the frames. */
  predicate Stores(o: Oracle, tick: nat, request: nat, readBefore: bool, i: nat) {
    i < HEADER || ItemStores(Loop(o, tick, Room(request), readBefore).items, HEADER, i)
  }

  lemma {:induction false} ItemStoresBelow(items: seq<Item>, at: nat, i: nat)
    requires ItemStores(items, at, i)
    ensures at <= i < at + Total(items)
    decreases |items|
  {
    if ItemStores(items[1..], at + Size(items[0]), i) {
      ItemStoresBelow(items[1..], at + Size(items[0]), i);
    }
  }

  /** Whatever the driver answers, a call stores inside the request if and only if
      the request has room for the header. */
  lemma StoresInsideExactly(o: Oracle, tick: nat, request: nat, readBefore: bool)
    requires request < 0x8000_0000
    ensures (forall i: nat :: Stores(o, tick, request, readBefore, i) ==> i < request) <==> request >= HEADER
  {
    hide Loop;
    var items := Loop(o, tick, Room(request), readBefore).items;
    if request >= HEADER {
      forall i: nat | Stores(o, tick, request, readBefore, i) ensures i < request {
        if ItemStores(items, HEADER, i) { ItemStoresBelow(items, HEADER, i); }
      }
    } else {
      assert Stores(o, tick, request, readBefore, HEADER - 1);
    }
  }

  lemma {:induction false} LaidKeeps(items: seq<Item>, before: seq<byte>, at: nat, i: nat)
    requires Total(items) <= |before| && i < |before| && !ItemStores(items, at, at + i)
    ensures Laid(items, before)[i] == before[i]
    decreases |items|
  {
    hide Low16;
    if items != [] {
      var n := Size(items[0]);
      if i >= n { LaidKeeps(items[1..], before[n..], at + n, i - n); }
    }
  }

  /** Every other byte of the buffer is as it was. */
  lemma ImageKeeps(o: Oracle, tick: nat, request: nat, readBefore: bool, before: seq<byte>, i: nat)
    requires i < |before| == HEADER + Room(request) && !Stores(o, tick, request, readBefore, i)
    ensures Image(Loop(o, tick, Room(request), readBefore).items, before)[i] == before[i]
  {
    hide Loop, Low16, Laid;
    var items := Loop(o, tick, Room(request), readBefore).items;
    LaidKeeps(items, before[HEADER..], HEADER, i - HEADER);
  }

  // ------------------------------------------------------------- the frame count

  lemma Halves(m: nat)
    ensures m % 0x100 == m % 0x10000 % 0x100 && m / 0x100 % 0x100 == m % 0x10000 / 0x100
  {
    var q, r := m / 0x10000, m % 0x10000;
    var hi, lo := r / 0x100, r % 0x100;
    assert m == 0x100 * (0x100 * q + hi) + lo;
    assert m / 0x100 == 0x100 * q + hi;
  }

  lemma Low16IsInjective(m: nat, n: nat)
    requires m % 0x10000 == n % 0x10000
    ensures Low16(m) == Low16(n)
  {
    Halves(m);
    Halves(n);
  }

  lemma CountUp(n: nat)
    ensures Low16(Value16(Low16(n)) + 1) == Low16(n + 1)
  {
    Value16OfLow16(n);
    hide Low16, Value16;
    assert (n % 0x10000 + 1) % 0x10000 == (n + 1) % 0x10000;
    Low16IsInjective(n % 0x10000 + 1, n + 1);
  }

  /** Overwrites the part x of a buffer made of the parts a, x and c. */
  method Store(buffer: array<byte>, at: nat, data: seq<byte>, ghost a: seq<byte>, ghost x: seq<byte>, ghost c: seq<byte>)
    requires buffer[..] == a + x + c && |a| == at && |x| == |data|
    modifies buffer
    ensures buffer[..] == a + data + c
  {
    forall i | 0 <= i < |data| {
      buffer[at + i] := data[i];
    }
  }

  // --------------------------------------------------- one pass through the loop

  /** Where the loop is: `done` written, `left` untouched, `now` still to come. */
  ghost predicate Sofar(b: seq<byte>, frames: nat, done: seq<byte>, left: seq<byte>, rest: seq<byte>,
                        now: Capture, goal: Capture, was: seq<byte>)
  {
    && b == MARKER + Low16(frames) + done + left + rest
    && Total(now.items) <= |left| && Total(goal.items) <= |was|
    && done + Laid(now.items, left) == Laid(goal.items, was)
    && frames + |Chunks(now.items)| == |Chunks(goal.items)|
    && now.stop == goal.stop && now.tick == goal.tick
  }

  lemma Start(b: seq<byte>, left: seq<byte>, rest: seq<byte>, goal: Capture)
    requires b == MARKER + Low16(0) + (left + rest) && Total(goal.items) <= |left|
    ensures Sofar(b, 0, [], left, rest, goal, goal, left)
  {
    hide Laid, Low16, Total, Chunks;
    assert MARKER + Low16(0) + [] + left + rest == b;
    assert [] + Laid(goal.items, left) == Laid(goal.items, left);
  }

  lemma Split(b: seq<byte>, frames: nat, done: seq<byte>, left: seq<byte>, rest: seq<byte>,
              now: Capture, goal: Capture, was: seq<byte>)
    requires Sofar(b, frames, done, left, rest, now, goal, was) && |left| >= 2
    ensures b == MARKER + Low16(frames) + done + left[..2] + left[2..] + rest
  {
    hide Laid, Low16, Total, Chunks;
    assert left == left[..2] + left[2..];
  }

  lemma Regroup(head: seq<byte>, done: seq<byte>, n: seq<byte>, got: seq<byte>, tail: seq<byte>, rest: seq<byte>)
    ensures head + (done + n) + (got + (tail + rest)) == head + (done + n + got) + tail + rest
    ensures done + (n + got + tail) == done + n + got + tail
  {
  }

  lemma UnfoldFrame(got: seq<byte>, items: seq<Item>)
    ensures Total([Frame(got)] + items) == 2 + |got| + Total(items)
    ensures Chunks([Frame(got)] + items) == [got] + Chunks(items)
  {
    assert ([Frame(got)] + items)[1..] == items;
  }

  lemma UnfoldLaid(got: seq<byte>, items: seq<Item>, left: seq<byte>)
    requires 2 + |got| + Total(items) <= |left|
    ensures Total([Frame(got)] + items) <= |left|
    ensures Laid([Frame(got)] + items, left) == Low16(|got|) + got + Laid(items, left[2 + |got|..])
  {
    assert ([Frame(got)] + items)[1..] == items;
  }

  lemma FrameStep(b: seq<byte>, frames: nat, done: seq<byte>, left: seq<byte>, rest: seq<byte>,
                  now: Capture, goal: Capture, was: seq<byte>, got: seq<byte>, next: Capture)
    requires exists b0 :: Sofar(b0, frames, done, left, rest, now, goal, was)
    requires 2 + |got| <= |left|
    requires b == MARKER + Low16(frames + 1) + (done + Low16(|got|)) + (got + (left[2..][|got|..] + rest))
    requires now == next.(items := [Frame(got)] + next.items)
    ensures Sofar(b, frames + 1, done + Low16(|got|) + got, left[2 + |got|..], rest, next, goal, was)
  {
    hide Low16;
    var tail := left[2 + |got|..];
    assert left[2..][|got|..] == tail;
    UnfoldFrame(got, next.items);
    UnfoldLaid(got, next.items, left);
    hide Laid, Total, Chunks;
    Regroup(MARKER + Low16(frames + 1), done, Low16(|got|), got, tail, rest);
    Regroup([], done, Low16(|got|), got, Laid(next.items, tail), []);
  }

  lemma GapStep(b: seq<byte>, frames: nat, done: seq<byte>, left: seq<byte>, rest: seq<byte>,
                now: Capture, goal: Capture, was: seq<byte>, next: Capture)
    requires Sofar(b, frames, done, left, rest, now, goal, was)
    requires 2 <= |left|
    requires now == next.(items := [Gap] + next.items)
    ensures Sofar(b, frames, done + left[..2], left[2..], rest, next, goal, was)
  {
    hide Low16;
    assert now.items[1..] == next.items;
    assert Laid(now.items, left) == left[..2] + Laid(next.items, left[2..]);
    assert Chunks(now.items) == Chunks(next.items);
    hide Laid, Total, Chunks;
    assert left[..2] + left[2..] == left;
    assert done + (left[..2] + Laid(next.items, left[2..])) == done + left[..2] + Laid(next.items, left[2..]);
  }

  lemma Finish(b: seq<byte>, frames: nat, done: seq<byte>, left: seq<byte>, rest: seq<byte>,
               now: Capture, goal: Capture, was: seq<byte>)
    requires |was| >= HEADER && Sofar(b, frames, done, left, rest, now, goal, was[HEADER..]) && now.items == []
    ensures HEADER + Total(goal.items) <= |was| && b == Image(goal.items, was) + rest
    ensures now.stop == goal.stop && now.tick == goal.tick && frames == |Chunks(goal.items)|
  {
    hide Low16;
    assert Laid(now.items, left) == left && Chunks(now.items) == [];
    hide Laid, Total, Chunks;
    assert MARKER + Low16(frames) + done + left == MARKER + Low16(frames) + (done + left);
  }

  // ------------------------------------------------------------------- the class

  /** The capture stream, open for AAC. */
  class StreamIn {
    var firstRead: bool
    var retries: nat
    var tick: nat               // answers of the driver used up

    constructor ()
      ensures !firstRead && retries == 0 && tick == 0
    {
      firstRead, retries, tick := false, 0, 0;
    }

    /** One read(2) of at most |room| bytes into the room of a buffer; -1 is a
        failure, and errno says whether it is EAGAIN. */
    method Read(buffer: array<byte>, p: nat, count: nat, o: Oracle, ghost a: seq<byte>, ghost room: seq<byte>, ghost c: seq<byte>)
      returns (n: int, again: bool)
      requires buffer[..] == a + room + c && |a| == p && |room| == count
      modifies this`tick, buffer
      ensures tick == old(tick) + 1
      ensures var answer := o(old(tick));
              if answer.Bytes? then
                var got := answer.data[..Min(|answer.data|, count)];
                n == |got| && buffer[..] == a + got + (room[|got|..] + c)
              else n == -1 && again == answer.Again? && buffer[..] == old(buffer[..])
    {
      n, again := -1, false;
      var answer := o(tick);
      tick := tick + 1;
      match answer {
        case Bytes(d) =>
          var got := d[..Min(|d|, count)];
          assert a + room + c == a + room[..|got|] + (room[|got|..] + c) by {
            assert room == room[..|got|] + room[|got|..];
          }
          Store(buffer, p, got, a, room[..|got|], room[|got|..] + c);
          n := |got|;
        case Again => again := true;
        case Error =>
      }
    }

    lemma RegroupFields(m: seq<byte>, f: seq<byte>, done: seq<byte>, n: seq<byte>, c: seq<byte>)
      ensures m + f + done + n + c == m + f + (done + n + c)
      ensures m + f + (done + n + c) == m + f + (done + n) + c
      ensures |m| == 4 && |f| == 2 ==> (m + f + done + n + c)[4..6] == f
    {
    }

    /** The two fields of a frame just read: its size, and the frame count. */
    method CountFrame(buffer: array<byte>, sizeAt: nat, n: nat,
                      ghost frames: nat, ghost done: seq<byte>, ghost slot: seq<byte>, ghost c: seq<byte>)
      requires buffer[..] == MARKER + Low16(frames) + done + slot + c
      requires |slot| == 2 && sizeAt == HEADER + |done|
      modifies buffer
      ensures buffer[..] == MARKER + Low16(frames + 1) + (done + Low16(n)) + c
    {
      CountUp(frames);
      hide Low16, Value16;
      Store(buffer, sizeAt, Low16(n), MARKER + Low16(frames) + done, slot, c);
      RegroupFields(MARKER, Low16(frames), done, Low16(n), c);
      assert buffer[4..6] == buffer[..][4..6] == Low16(frames);
      Store(buffer, 4, Low16(Value16(buffer[4..6]) + 1), MARKER, Low16(frames), done + Low16(n) + c);
      RegroupFields(MARKER, Low16(frames + 1), done, Low16(n), c);
    }

    lemma HeaderRoom(marker: seq<byte>, was: seq<byte>, rest: seq<byte>)
      requires |was| >= HEADER
      ensures was + rest == [] + was[..4] + (was[4..] + rest)
      ensures [] + marker + (was[4..] + rest) == marker + was[4..HEADER] + (was[HEADER..] + rest)
    {
      assert was == was[..4] + was[4..];
      assert was[4..] == was[4..HEADER] + was[HEADER..];
    }

    /** The marker and a zero frame count. */
    method WriteHeader(buffer: array<byte>, ghost was: seq<byte>, ghost rest: seq<byte>)
      requires buffer[..] == was + rest && |was| >= HEADER
      modifies buffer
      ensures buffer[..] == MARKER + Low16(0) + (was[HEADER..] + rest)
    {
      hide Low16;
      HeaderRoom(MARKER, was, rest);
      Store(buffer, 0, MARKER, [], was[..4], was[4..] + rest);
      Store(buffer, 4, Low16(0), MARKER, was[4..HEADER], was[HEADER..] + rest);
    }

    /** One read behind a size slot; a chunk that came is counted. */
    method ReadFrame(buffer: array<byte>, sizeAt: nat, count: nat, o: Oracle,
                     ghost frames: nat, ghost done: seq<byte>, ghost slot: seq<byte>, ghost room: seq<byte>, ghost rest: seq<byte>)
      returns (n: int, again: bool)
      requires buffer[..] == MARKER + Low16(frames) + done + slot + room + rest
      requires |slot| == 2 && sizeAt == HEADER + |done| && count == |room|
      modifies this`tick, buffer
      ensures tick == old(tick) + 1
      ensures var answer := o(old(tick));
              if answer.Bytes? && answer.data[..Min(|answer.data|, count)] != [] then
                var got := answer.data[..Min(|answer.data|, count)];
                && n == |got|
                && buffer[..] == MARKER + Low16(frames + 1) + (done + Low16(n)) + (got + (room[n..] + rest))
              else n == (if answer.Bytes? then 0 else -1) && (n < 0 ==> again == answer.Again?) && buffer[..] == old(buffer[..])
    {
      hide Low16;
      n, again := Read(buffer, sizeAt + 2, count, o, MARKER + Low16(frames) + done + slot, room, rest);
      if n > 0 {
        ghost var got := o(old(tick)).data[..n];
        assert buffer[..] == MARKER + Low16(frames) + done + slot + (got + (room[n..] + rest));
        CountFrame(buffer, sizeAt, n, frames, done, slot, got + (room[n..] + rest));
      } else if n == 0 {
        assert room[0..] == room;
      }
    }

    /** A call, in the memory from the caller's pointer on. */
    method ReadAac(buffer: array<byte>, request: nat, o: Oracle) returns (result: int)
      requires request < 0x8000_0000 && HEADER + Room(request) <= buffer.Length
      modifies this, buffer
      ensures var c, end := Loop(o, old(tick), Room(request), old(firstRead)), HEADER + Room(request);
              && buffer[..] == Image(c.items, old(buffer[..end])) + old(buffer[end..])
              && result == (if c.stop == Failed then -1 else request)
              && firstRead == (old(firstRead) || c.stop == OneFrame)
              && tick == c.tick
              && retries == old(retries) + |c.items| - |Chunks(c.items)|
    {
      hide Low16, Value16, Chunks, Total, Laid, Image, Sofar, Loop;
      var p, count := HEADER, (request - HEADER) % 0x1_0000_0000;
      ghost var was, rest := buffer[..p + count], buffer[p + count..];
      ghost var goal := Loop(o, tick, count, firstRead);
      assert buffer[..] == was + rest;
      WriteHeader(buffer, was, rest);
      ghost var now, done, left, frames := goal, [], was[HEADER..], 0;
      Start(buffer[..], left, rest, goal);
      while count > 0
        invariant HEADER <= p && p + count == HEADER + Room(request)
        invariant |done| == p - HEADER && |left| == count
        invariant firstRead == old(firstRead)
        invariant now == Loop(o, tick, count, firstRead)
        invariant Sofar(buffer[..], frames, done, left, rest, now, goal, was[HEADER..])
        invariant retries + |now.items| + frames == old(retries) + |goal.items|
        decreases count
      {
        Unfold(o, tick, count, firstRead);
        var sizeAt := p;
        p := p + 2;
        if !(count > 2) {
          break;
        }
        count := count - 2;
        Split(buffer[..], frames, done, left, rest, now, goal, was[HEADER..]);
        var n, again := ReadFrame(buffer, sizeAt, count, o, frames, done, left[..2], left[2..], rest);
        if n > 0 {
          count, p := count - n, p + n;
          ghost var got := o(tick - 1).data[..n];
          ghost var next := if firstRead then Loop(o, tick, count, true) else Capture([], tick, OneFrame);
          FrameStep(buffer[..], frames, done, left, rest, now, goal, was[HEADER..], got, next);
          frames, done, left, now := frames + 1, done + Low16(n) + got, left[2 + n..], next;
          if !firstRead {
            firstRead := true;
            break;
          }
        } else if n == 0 {
          break;
        } else {
          if !again {
            Finish(buffer[..], frames, done, left, rest, now, goal, was);
            return n;
          }
          retries := retries + 1;
          ghost var next := Loop(o, tick, count, firstRead);
          GapStep(buffer[..], frames, done, left, rest, now, goal, was[HEADER..], next);
          done, left, now := done + left[..2], left[2..], next;
        }
      }
      Unfold(o, tick, count, firstRead);
      Finish(buffer[..], frames, done, left, rest, now, goal, was);
      result := request;
    }
  }
}
