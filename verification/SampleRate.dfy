/**
 The search for the supported capture rate nearest to a requested one, in the
 source's 32-bit unsigned arithmetic, and the table index of a rate.
 */
module SampleRate {
  const TWO_31 := 0x8000_0000
  const TWO_32 := 0x1_0000_0000

  const RATES: seq<nat> := [8000, 11025, 12000, 16000, 22050, 24000, 32000, 44100, 48000]

  /** abs() of the 32-bit difference, read as a signed and stored as an unsigned word. */
  function Delta(rate: nat, t: nat): nat {
    var d := (rate - t) % TWO_32;
    if d < TWO_31 then d else TWO_32 - d
  }

  /** The search from entry i on, the difference of the entry before being known. */
  function Search(table: seq<nat>, rate: nat, i: nat, prev: nat): (r: nat)
    requires 0 < i <= |table|
    ensures r in table
    decreases |table| - i
  {
    if i == |table| || Delta(rate, table[i]) > prev then table[i - 1]
    else Search(table, rate, i + 1, Delta(rate, table[i]))
  }

  function InputRate(rate: nat): nat {
    Search(RATES, rate, 1, Delta(rate, RATES[0]))
  }

  method GetInputSampleRate(rate: nat) returns (r: nat)
    requires rate < TWO_32
    ensures r == InputRate(rate)
  {
    var i, prevDelta := 0, 0xFFFF_FFFF;
    while i < |RATES|
      invariant 0 <= i <= |RATES|
      invariant i == 0 ==> prevDelta == 0xFFFF_FFFF
      invariant i > 0 ==> prevDelta == Delta(rate, RATES[i - 1]) && InputRate(rate) == Search(RATES, rate, i, prevDelta)
    {
      var delta := Delta(rate, RATES[i]);
      if delta > prevDelta { break; }
      i, prevDelta := i + 1, delta;
    }
    r := RATES[i - 1];
  }

  function Dist(a: nat, b: nat): nat { if a < b then b - a else a - b }

  predicate Increasing(table: seq<nat>) {
    forall i, j :: 0 <= i < j < |table| ==> table[i] < table[j]
  }

  /** The entry at the least distance, the larger one on a tie. */
  predicate Nearest(table: seq<nat>, rate: nat, r: nat) {
    && r in table
    && forall k :: 0 <= k < |table| ==>
         Dist(rate, r) < Dist(rate, table[k]) || (Dist(rate, r) == Dist(rate, table[k]) && table[k] <= r)
  }

  /** The early exit is right for every increasing table while no difference wraps. */
  lemma {:induction false} SearchIsNearest(table: seq<nat>, rate: nat, i: nat)
    requires Increasing(table) && 0 < i <= |table|
    requires forall k :: 0 <= k < |table| ==> Delta(rate, table[k]) == Dist(rate, table[k])
    requires Nearest(table[..i], rate, table[i - 1])
    ensures Nearest(table, rate, Search(table, rate, i, Delta(rate, table[i - 1])))
    decreases |table| - i
  {
    if i == |table| {
      assert table[..i] == table;
    } else if Delta(rate, table[i]) > Delta(rate, table[i - 1]) {
      forall k | 0 <= k < |table|
        ensures Dist(rate, table[i - 1]) < Dist(rate, table[k])
                || (Dist(rate, table[i - 1]) == Dist(rate, table[k]) && table[k] <= table[i - 1])
      {
        assert Delta(rate, table[k]) == Dist(rate, table[k]);
        if k < i { assert table[k] == table[..i][k]; } else { assert table[i] <= table[k]; }
      }
    } else {
      forall k | 0 <= k < i + 1
        ensures Dist(rate, table[i]) < Dist(rate, table[..i + 1][k])
                || (Dist(rate, table[i]) == Dist(rate, table[..i + 1][k]) && table[k] <= table[i])
      {
        if k < i { assert table[k] == table[..i][k]; }
      }
      assert table[..i + 1][i] == table[i];
      SearchIsNearest(table, rate, i + 1);
    }
  }

  /** The highest request answered correctly. */
  const HIGHEST := TWO_31 + 9512

  lemma Straight(rate: nat, t: nat)
    requires TWO_31 <= rate <= HIGHEST && 11025 <= t <= 48000
    ensures Delta(rate, t) == rate - t
  {
  }

  lemma Falls(rate: nat, i: nat)
    requires TWO_31 <= rate <= HIGHEST && 0 < i < |RATES|
    ensures Delta(rate, RATES[i]) <= Delta(rate, RATES[i - 1])
  {
    assert 11025 <= RATES[i] <= 48000 && 8000 <= RATES[i - 1] < RATES[i];
    Straight(rate, RATES[i]);
    if i > 1 {
      Straight(rate, RATES[i - 1]);
    }
  }

  lemma {:induction false} Chain(rate: nat, i: nat)
    requires TWO_31 <= rate <= HIGHEST && 0 < i <= |RATES|
    ensures Search(RATES, rate, i, Delta(rate, RATES[i - 1])) == 48000
    decreases |RATES| - i
  {
    if i < |RATES| {
      Falls(rate, i);
      Chain(rate, i + 1);
      hide Delta;
    }
  }

  lemma Descends(rate: nat)
    requires TWO_31 <= rate <= HIGHEST
    ensures InputRate(rate) == 48000
  {
    Chain(rate, 1);
  }

  lemma Wraps(rate: nat)
    requires HIGHEST < rate < TWO_32
    ensures InputRate(rate) == 8000
  {
    assert Delta(rate, RATES[1]) > Delta(rate, RATES[0]);
  }

  /** For every 32-bit request the answer is the nearest rate if and only if the
      request is at most 2^31 + 9512. */
  lemma AnswerIsNearest(rate: nat)
    requires rate < TWO_32
    ensures Nearest(RATES, rate, InputRate(rate)) <==> rate <= HIGHEST
  {
    if rate < TWO_31 {
      forall k | 0 <= k < |RATES| ensures Delta(rate, RATES[k]) == Dist(rate, RATES[k]) {
      }
      assert RATES[..1] == [8000];
      SearchIsNearest(RATES, rate, 1);
    } else if rate <= HIGHEST {
      Descends(rate);
    } else {
      Wraps(rate);
      assert Dist(rate, 8000) > Dist(rate, RATES[8]);
    }
  }

  /** A request is answered with itself exactly when it is a supported rate. */
  lemma FixedPoints(rate: nat)
    requires rate < TWO_32
    ensures InputRate(rate) == rate <==> rate in RATES
  {
    AnswerIsNearest(rate);
    if rate in RATES {
      var k :| 0 <= k < |RATES| && RATES[k] == rate;
      assert Dist(rate, RATES[k]) == 0;
      assert rate <= 48000;
    }
  }

  /** The index into the pre-processing tables; -1 for other rates. */
  function TableIndex(rate: nat): int {
    match rate
    case 48000 => 8
    case 44100 => 7
    case 32000 => 6
    case 24000 => 5
    case 22050 => 4
    case 16000 => 3
    case 12000 => 2
    case 11025 => 1
    case 8000 => 0
    case _ => -1
  }

  /** The k-th supported rate has index k, every answer of the search has an
      index, and any other rate has none. */
  lemma IndexInvertsTheTable(rate: nat)
    requires rate < TWO_32
    ensures 0 <= TableIndex(InputRate(rate)) < |RATES| && RATES[TableIndex(InputRate(rate))] == InputRate(rate)
    ensures forall k :: 0 <= k < |RATES| ==> TableIndex(RATES[k]) == k
    ensures TableIndex(rate) == -1 <==> rate !in RATES
  {
    var r := InputRate(rate);
    assert r in RATES;
  }
}
