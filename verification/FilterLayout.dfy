/**
 Where the words of a line end up, spelled out entry by entry, for one record and
 for a whole file.
 */
module FilterLayout {
  import opened CStrings
  import opened FilterTables
  import opened FilterLoader
  import opened FilterRoundTrip
  import opened Wrappers

  // ------------------------------------------------------------ one record

  /** A 16-bit word as a signed number. */
  function Signed(w: int): int {
    (w + 0x8000) % 0x1_0000 - 0x8000
  }

  ghost predicate IirLaid(t: Tables, d: nat, v: seq<int>)
    requires |v| >= 50
  {
    && (forall i | 0 <= i < 48 :: Get(t, IirParam(d, i)) == v[i])
    && Get(t, IirFlag(d)) == v[48] && Get(t, IirBands(d)) == v[49]
  }

  ghost predicate AdrcLaid(t: Tables, d: nat, v: seq<int>)
    requires |v| >= 9
  {
    Get(t, AdrcFlag(d)) == v[0] && forall i | 0 <= i < 8 :: Get(t, AdrcParam(d, i)) == v[i + 1]
  }

  ghost predicate EqBandLaid(t: Tables, d: nat, v: seq<int>, cal: EqCal, b: nat)
    requires b < 8 && |v| >= 33
  {
    var out := cal(Signed(v[4 * b + 1]), v[4 * b + 2], v[4 * b + 3], v[4 * b + 4]);
    && (forall j | 0 <= j < 6 :: Get(t, EqParam(d, 6 * b + j)) == out.num[j])
    && (forall j | 0 <= j < 4 :: Get(t, EqParam(d, 48 + 4 * b + j)) == out.den[j])
    && Get(t, EqParam(d, 80 + b)) == out.shift
  }

  ghost predicate EqLaid(t: Tables, d: nat, v: seq<int>, cal: EqCal)
    requires |v| >= 33
  {
    && Get(t, EqFlag(d)) == v[0] && Get(t, EqBands(d)) == 8
    && (forall b: nat | b < 8 :: EqBandLaid(t, d, v, cal, b))
    && forall p | 88 <= p < 132 :: Get(t, EqParam(d, p)) == 0
  }

  ghost predicate MbHeaderLaid(t: Tables, d: nat, v: seq<int>)
    requires |v| >= 7
  {
    && Get(t, MbBands(d)) == v[0] && Get(t, MbDownSamp(d)) == v[1] && Get(t, MbDelay(d)) == v[2]
    && Get(t, MbExtSize(d)) == v[3] && Get(t, MbExtPartition(d)) == v[4]
    && Get(t, MbExtMsw(d)) == v[5] && Get(t, MbExtLsw(d)) == v[6]
  }

  ghost predicate MbadrcLaid(t: Tables, d: nat, v: seq<int>)
    requires |v| >= 8 && v[0] >= 0 && v[3] >= 0 && |v| == 8 + 10 * v[0] + v[3] / 2
  {
    && MbHeaderLaid(t, d, v)
    && (forall b, j | 0 <= b < v[0] && 0 <= j < 10 :: Get(t, MbBand(d, b, j)) == v[7 + 10 * b + j])
    && (forall e | 0 <= e < v[3] / 2 :: Get(t, MbExt(d, e)) == Signed(v[7 + 10 * v[0] + e]))
    && Get(t, MbFlag(d)) == v[|v| - 1]
  }

  ghost predicate TxIirLaid(t: Tables, rate: nat, v: seq<int>)
    requires |v| >= 52
  {
    && (forall i | 0 <= i < 20 :: Get(t, TxParam(rate, 2 * i)) == v[2 * i + 1] && Get(t, TxParam(rate, 2 * i + 1)) == v[2 * i])
    && (forall i | 40 <= i < 48 :: Get(t, TxParam(rate, i)) == v[i])
    && Get(t, TxActive(rate)) == v[48] && Get(t, TxBands(rate)) == v[50] && Get(t, TxCmd(rate)) == 0
    && (v[49] != 0 ==> Get(t, PreprocBit(rate, TxIir)) == 1)
  }

  ghost predicate AgcLaid(t: Tables, rate: nat, v: seq<int>)
    requires |v| >= 25
  {
    && Get(t, AgcCmd(rate)) == v[0] && Get(t, AgcMask(rate)) == v[1] && Get(t, AgcEnable(rate)) == v[2]
    && Get(t, AgcStatic(rate)) == v[3] && Get(t, AgcAdaptive(rate)) == Signed(v[4])
    && (forall i | 0 <= i < 19 :: Get(t, AgcParam(rate, i)) == v[i + 5])
    && (v[24] != 0 ==> Get(t, PreprocBit(rate, Agc)) == 1)
  }

  ghost predicate NsLaid(t: Tables, rate: nat, v: seq<int>)
    requires |v| >= 9
  {
    && Get(t, NsCmd(rate)) == v[0] && Get(t, NsEcMode(rate)) == v[1] && Get(t, NsDensGamma(rate)) == v[2]
    && Get(t, NsBlockSize(rate)) == v[3] && Get(t, NsLimit(rate)) == v[4] && Get(t, NsLimitD(rate)) == v[5]
    && Get(t, NsWbGammaE(rate)) == v[6] && Get(t, NsWbGammaN(rate)) == v[7]
    && (v[8] != 0 ==> Get(t, PreprocBit(rate, Ns)) == 1)
  }

  /** The entries of a record's own slot, each with the word of the line it gets. */
  ghost predicate LaidOut(t: Tables, r: GoodRecord, cal: EqCal) {
    match r.kind
    case Iir => IirLaid(t, r.slot, r.vals)
    case Adrc => AdrcLaid(t, r.slot, r.vals)
    case Eq => EqLaid(t, r.slot, r.vals, cal)
    case Mbadrc => MbadrcLaid(t, r.slot, r.vals)
    case TxIir => TxIirLaid(t, r.slot, r.vals)
    case Agc => AgcLaid(t, r.slot, r.vals)
    case Ns => NsLaid(t, r.slot, r.vals)
  }

  /** Word k of a record is in the cell it goes to. */
  ghost predicate StoredAt(m: Tables, r: GoodRecord, cal: EqCal, k: nat)
    requires k < |r.vals|
  {
    match TargetOf(r.kind, r.slot, r.vals, k)
    case Skip => true
    case Put(c) => Get(Apply(m, r, cal), c) == Stored(c, r.vals[k])
  }

  lemma StoreOf(m: Tables, r: GoodRecord, cal: EqCal, k: nat)
    requires k < |r.vals|
    ensures StoredAt(m, r, cal, k)
  {
    RecordIsStored(m, r, cal, k);
  }

  lemma IirIsLaid(m: Tables, r: GoodRecord, cal: EqCal)
    requires r.kind.Iir?
    ensures IirLaid(Apply(m, r, cal), r.slot, r.vals)
  {
    hide Apply;
    forall i: nat | i < 50 ensures StoredAt(m, r, cal, i) { StoreOf(m, r, cal, i); }
    forall i | 0 <= i < 48 ensures Get(Apply(m, r, cal), IirParam(r.slot, i)) == r.vals[i] {
      assert StoredAt(m, r, cal, i);
    }
    assert StoredAt(m, r, cal, 48) && StoredAt(m, r, cal, 49);
  }

  lemma AdrcIsLaid(m: Tables, r: GoodRecord, cal: EqCal)
    requires r.kind.Adrc?
    ensures AdrcLaid(Apply(m, r, cal), r.slot, r.vals)
  {
    hide Apply;
    forall i: nat | i < 9 ensures StoredAt(m, r, cal, i) { StoreOf(m, r, cal, i); }
    forall i | 0 <= i < 8 ensures Get(Apply(m, r, cal), AdrcParam(r.slot, i)) == r.vals[i + 1] {
      assert StoredAt(m, r, cal, i + 1);
    }
    assert StoredAt(m, r, cal, 0);
  }

  lemma EqBandIsLaid(m: Tables, r: GoodRecord, cal: EqCal, b: nat)
    requires r.kind.Eq? && b < 8
    ensures EqBandLaid(Apply(m, r, cal), r.slot, r.vals, cal, b)
  {
    hide Apply;
    var t := Apply(m, r, cal);
    assert ToInt16(r.vals[4 * b + 1]) == Signed(r.vals[4 * b + 1]);
    forall j | 0 <= j < 6 ensures Get(t, EqParam(r.slot, 6 * b + j)) == BandOut(r.vals, b, cal).num[j] {
      EqualizerIsStored(m, r, cal, Num(b, j), 88);
    }
    forall j | 0 <= j < 4 ensures Get(t, EqParam(r.slot, 48 + 4 * b + j)) == BandOut(r.vals, b, cal).den[j] {
      EqualizerIsStored(m, r, cal, Den(b, j), 88);
    }
    EqualizerIsStored(m, r, cal, Shift(b), 88);
  }

  lemma EqBehindIsZero(m: Tables, r: GoodRecord, cal: EqCal, p: int)
    requires r.kind.Eq? && 88 <= p < 132
    ensures Get(Apply(m, r, cal), EqBands(r.slot)) == 8 && Get(Apply(m, r, cal), EqParam(r.slot, p)) == 0
  {
    EqualizerIsStored(m, r, cal, Num(0, 0), p);
    hide *;
  }

  lemma EqIsLaid(m: Tables, r: GoodRecord, cal: EqCal)
    requires r.kind.Eq?
    ensures EqLaid(Apply(m, r, cal), r.slot, r.vals, cal)
  {
    hide Apply, EqBandLaid, Get;
    StoreOf(m, r, cal, 0);
    EqBehindIsZero(m, r, cal, 88);
    forall p | 88 <= p < 132 ensures Get(Apply(m, r, cal), EqParam(r.slot, p)) == 0 { EqBehindIsZero(m, r, cal, p); }
    forall b: nat | b < 8 ensures EqBandLaid(Apply(m, r, cal), r.slot, r.vals, cal, b) { EqBandIsLaid(m, r, cal, b); }
  }

  lemma MbHeaderIsLaid(m: Tables, r: GoodRecord, cal: EqCal)
    requires r.kind.Mbadrc? && forall i: nat | i < |r.vals| :: StoredAt(m, r, cal, i)
    ensures |r.vals| >= 7 && MbHeaderLaid(Apply(m, r, cal), r.slot, r.vals)
  {
    hide Apply;
    assert |r.vals| >= 8;
    assert StoredAt(m, r, cal, 0) && StoredAt(m, r, cal, 1) && StoredAt(m, r, cal, 2) && StoredAt(m, r, cal, 3);
    assert StoredAt(m, r, cal, 4) && StoredAt(m, r, cal, 5) && StoredAt(m, r, cal, 6);
  }

  lemma MbBandsAreLaid(m: Tables, r: GoodRecord, cal: EqCal)
    requires r.kind.Mbadrc? && forall i: nat | i < |r.vals| :: StoredAt(m, r, cal, i)
    ensures var v := r.vals;
            forall b, j | 0 <= b < v[0] && 0 <= j < 10 :: Get(Apply(m, r, cal), MbBand(r.slot, b, j)) == v[7 + 10 * b + j]
  {
    hide Apply;
    var v := r.vals;
    forall b, j | 0 <= b < v[0] && 0 <= j < 10
      ensures Get(Apply(m, r, cal), MbBand(r.slot, b, j)) == v[7 + 10 * b + j]
    {
      assert StoredAt(m, r, cal, 7 + 10 * b + j);
    }
  }

  lemma MbRestIsLaid(m: Tables, r: GoodRecord, cal: EqCal)
    requires r.kind.Mbadrc? && forall i: nat | i < |r.vals| :: StoredAt(m, r, cal, i)
    ensures var t, v := Apply(m, r, cal), r.vals;
            && (forall e | 0 <= e < v[3] / 2 :: Get(t, MbExt(r.slot, e)) == Signed(v[7 + 10 * v[0] + e]))
            && Get(t, MbFlag(r.slot)) == v[|v| - 1]
  {
    hide Apply;
    var v := r.vals;
    forall e | 0 <= e < v[3] / 2 ensures Get(Apply(m, r, cal), MbExt(r.slot, e)) == Signed(v[7 + 10 * v[0] + e]) {
      assert StoredAt(m, r, cal, 7 + 10 * v[0] + e);
    }
    assert StoredAt(m, r, cal, |v| - 1);
  }

  lemma MbadrcIsLaid(m: Tables, r: GoodRecord, cal: EqCal)
    requires r.kind.Mbadrc?
    ensures r.vals[0] >= 0 && r.vals[3] >= 0 && MbadrcLaid(Apply(m, r, cal), r.slot, r.vals)
  {
    assert r.vals[0] >= 0 && r.vals[3] >= 0;
    hide Apply, MbHeaderLaid, Signed, Get, StoredAt;
    forall i: nat | i < |r.vals| ensures StoredAt(m, r, cal, i) { StoreOf(m, r, cal, i); }
    MbHeaderIsLaid(m, r, cal);
    MbBandsAreLaid(m, r, cal);
    MbRestIsLaid(m, r, cal);
  }

  lemma CommandIsZero(m: Tables, r: GoodRecord, cal: EqCal)
    requires r.kind.TxIir?
    ensures Get(Apply(m, r, cal), TxCmd(r.slot)) == 0
  {
  }

  lemma TxIirIsLaid(m: Tables, r: GoodRecord, cal: EqCal)
    requires r.kind.TxIir?
    ensures TxIirLaid(Apply(m, r, cal), r.slot, r.vals)
  {
    RecordPreprocBit(m, r, cal, r.slot, TxIir);
    CommandIsZero(m, r, cal);
    hide Apply;
    var t := Apply(m, r, cal);
    forall i: nat | i < 52 ensures StoredAt(m, r, cal, i) { StoreOf(m, r, cal, i); }
    forall i | 0 <= i < 20
      ensures Get(t, TxParam(r.slot, 2 * i)) == r.vals[2 * i + 1] && Get(t, TxParam(r.slot, 2 * i + 1)) == r.vals[2 * i]
    {
      assert StoredAt(m, r, cal, 2 * i) && StoredAt(m, r, cal, 2 * i + 1);
    }
    forall i | 40 <= i < 48 ensures Get(t, TxParam(r.slot, i)) == r.vals[i] { assert StoredAt(m, r, cal, i); }
    assert StoredAt(m, r, cal, 48) && StoredAt(m, r, cal, 50);
  }

  lemma AgcIsLaid(m: Tables, r: GoodRecord, cal: EqCal)
    requires r.kind.Agc?
    ensures AgcLaid(Apply(m, r, cal), r.slot, r.vals)
  {
    RecordPreprocBit(m, r, cal, r.slot, Agc);
    hide Apply;
    var t := Apply(m, r, cal);
    forall i: nat | i < 25 ensures StoredAt(m, r, cal, i) { StoreOf(m, r, cal, i); }
    forall i | 0 <= i < 19 ensures Get(t, AgcParam(r.slot, i)) == r.vals[i + 5] { assert StoredAt(m, r, cal, i + 5); }
    assert StoredAt(m, r, cal, 0) && StoredAt(m, r, cal, 1) && StoredAt(m, r, cal, 2) && StoredAt(m, r, cal, 3);
    assert StoredAt(m, r, cal, 4);
  }

  lemma NsIsLaid(m: Tables, r: GoodRecord, cal: EqCal)
    requires r.kind.Ns?
    ensures NsLaid(Apply(m, r, cal), r.slot, r.vals)
  {
    RecordPreprocBit(m, r, cal, r.slot, Ns);
    hide Apply;
    forall i: nat | i < 9 ensures StoredAt(m, r, cal, i) { StoreOf(m, r, cal, i); }
    assert StoredAt(m, r, cal, 0) && StoredAt(m, r, cal, 1) && StoredAt(m, r, cal, 2) && StoredAt(m, r, cal, 3);
    assert StoredAt(m, r, cal, 4) && StoredAt(m, r, cal, 5) && StoredAt(m, r, cal, 6) && StoredAt(m, r, cal, 7);
  }

  /** Every entry of a record's slot gets its own word of the line. */
  lemma RecordIsLaidOut(m: Tables, r: GoodRecord, cal: EqCal)
    ensures LaidOut(Apply(m, r, cal), r, cal)
  {
    hide Apply, IirLaid, AdrcLaid, EqLaid, MbadrcLaid, TxIirLaid, AgcLaid, NsLaid;
    match r.kind {
      case Iir => IirIsLaid(m, r, cal);
      case Adrc => AdrcIsLaid(m, r, cal);
      case Eq => EqIsLaid(m, r, cal);
      case Mbadrc => MbadrcIsLaid(m, r, cal);
      case TxIir => TxIirIsLaid(m, r, cal);
      case Agc => AgcIsLaid(m, r, cal);
      case Ns => NsIsLaid(m, r, cal);
    }
  }

  // ------------------------------------------------------------ a whole file

  /** The tables agree on everything the record alone owns. */
  ghost predicate SameSlot(t: Tables, u: Tables, r: Record) {
    forall c | Owns(r.kind, r.slot, c) && c !in {TxFlag(0), AgcFlag(0), NsFlag(0)} :: Get(t, c) == Get(u, c)
  }

  lemma EqCarries(t: Tables, u: Tables, r: GoodRecord, cal: EqCal)
    requires r.kind.Eq? && LaidOut(t, r, cal) && SameSlot(t, u, r)
    ensures LaidOut(u, r, cal)
  {
    forall b: nat | b < 8 ensures EqBandLaid(u, r.slot, r.vals, cal, b) {
      assert EqBandLaid(t, r.slot, r.vals, cal, b);
    }
    hide EqBandLaid;
  }

  lemma MbadrcCarries(t: Tables, u: Tables, r: GoodRecord, cal: EqCal)
    requires r.kind.Mbadrc? && LaidOut(t, r, cal) && SameSlot(t, u, r)
    ensures LaidOut(u, r, cal)
  {
    hide Signed;
  }

  lemma TransmitCarries(t: Tables, u: Tables, r: GoodRecord, cal: EqCal)
    requires (r.kind.TxIir? || r.kind.Agc? || r.kind.Ns?) && LaidOut(t, r, cal) && SameSlot(t, u, r)
    ensures LaidOut(u, r, cal)
  {
    hide Signed;
  }

  lemma LaidOutCarries(t: Tables, u: Tables, r: GoodRecord, cal: EqCal)
    requires LaidOut(t, r, cal) && SameSlot(t, u, r)
    ensures LaidOut(u, r, cal)
  {
    hide EqLaid, MbadrcLaid, TxIirLaid, AgcLaid, NsLaid;
    match r.kind {
      case Eq => EqCarries(t, u, r, cal);
      case Mbadrc => MbadrcCarries(t, u, r, cal);
      case Iir =>
      case Adrc =>
      case _ => TransmitCarries(t, u, r, cal);
    }
  }

  /** No later record is for the same slot of the same kind. */
  predicate LastOfSlot(rs: seq<GoodRecord>, i: nat)
    requires i < |rs|
  {
    forall j | i < j < |rs| :: !(rs[j].kind == rs[i].kind && rs[j].slot == rs[i].slot)
  }

  /** After a file the last record of every slot is laid out in it. */
  lemma {:induction false} FileIsLaidOut(m: Tables, rs: seq<GoodRecord>, cal: EqCal, i: nat)
    requires i < |rs| && LastOfSlot(rs, i)
    ensures LaidOut(ApplyAll(m, rs, cal), rs[i], cal)
    decreases i
  {
    hide Apply, LaidOut;
    if i == 0 {
      var t := Apply(m, rs[0], cal);
      RecordIsLaidOut(m, rs[0], cal);
      forall c | Owns(rs[0].kind, rs[0].slot, c) && c !in {TxFlag(0), AgcFlag(0), NsFlag(0)}
        ensures Get(t, c) == Get(ApplyAll(m, rs, cal), c)
      {
        forall j | 0 <= j < |rs[1..]| ensures !Owns(rs[1..][j].kind, rs[1..][j].slot, c) {
          assert rs[1..][j] == rs[j + 1];
          if Owns(rs[1..][j].kind, rs[1..][j].slot, c) { SlotsAreSeparate(rs[0], rs[j + 1], c); }
        }
        UnownedSurvives(t, rs[1..], cal, c);
      }
      LaidOutCarries(t, ApplyAll(m, rs, cal), rs[0], cal);
    } else {
      assert forall j | 0 <= j < |rs[1..]| :: rs[1..][j] == rs[j + 1];
      FileIsLaidOut(Apply(m, rs[0], cal), rs[1..], cal, i - 1);
    }
  }

  /** The flag that all transmit records of a kind share is that of the last one. */
  lemma FileSharedFlags(m: Tables, rs: seq<GoodRecord>, cal: EqCal, i: nat)
    requires i < |rs| && forall j | i < j < |rs| :: rs[j].kind != rs[i].kind
    ensures var t, v := ApplyAll(m, rs, cal), rs[i].vals;
            && (rs[i].kind.TxIir? ==> Get(t, TxFlag(0)) == v[49])
            && (rs[i].kind.Agc? ==> Get(t, AgcFlag(0)) == v[24])
            && (rs[i].kind.Ns? ==> Get(t, NsFlag(0)) == v[8])
  {
    hide Apply, ApplyAll;
    match rs[i].kind {
      case TxIir => FileIsStored(m, rs, cal, i, 49, TxFlag(0));
      case Agc => FileIsStored(m, rs, cal, i, 24, AgcFlag(0));
      case Ns => FileIsStored(m, rs, cal, i, 8, NsFlag(0));
      case _ =>
    }
  }

  // ------------------------------------------------------- from a line's text

  /** The words behind a line's header, and behind its description where it has one. */
  function WordsOf(line: seq<char>): (ws: seq<int>)
    ensures AreWords(ws)
  {
    var fields := Fields(line);
    var lead := if line != [] && line[0] in {'F', 'G'} then 1 else 2;
    if |fields| < lead then [] else Words(fields[lead..])
  }

  /** The record a line is for by its first character. */
  function KindOfLetter(c: char): Option<Kind> {
    if c == 'A' then Some(Iir) else if c == 'B' then Some(Adrc) else if c == 'C' then Some(Eq)
    else if c == 'D' then Some(Mbadrc) else if c == 'E' then Some(TxIir)
    else if c == 'F' then Some(Agc) else if c == 'G' then Some(Ns) else None
  }

  /** A line has a letter and a digit, and words enough for its kind. */
  predicate Complete(line: seq<char>, haveEq: bool) {
    && |line| >= 2
    && var v := WordsOf(line);
       && '1' <= line[1] <= (if line[0] in {'E', 'F', 'G'} then '9' else '3')
       && match line[0]
          case 'A' => |v| >= 50
          case 'B' => |v| >= 9
          case 'C' => |v| >= 33 && haveEq
          case 'D' => |v| >= 8 && v[0] <= 5 && v[3] <= 392 && |v| >= 8 + 10 * v[0] + v[3] / 2
          case 'E' => |v| >= 52
          case 'F' => |v| >= 25
          case 'G' => |v| >= 9
          case _ => false
  }

  lemma OwnerIsRead(line: seq<char>)
    ensures Owner(line).Some?
            <==> |line| >= 2 && KindOfLetter(line[0]).Some? && '1' <= line[1] <= (if line[0] in {'E', 'F', 'G'} then '9' else '3')
    ensures Owner(line).Some? ==>
              var (kind, slot) := Owner(line).value;
              && Some(kind) == KindOfLetter(line[0]) && slot == line[1] as int - '1' as int
              && Payload(kind, line) == WordsOf(line)
  {
    hide Fields, Words;
  }

  /** A line is accepted exactly when it is complete, and then as the record of its
      letter, for the device or rate of its digit, with its words from the first on. */
  lemma LineIsRead(line: seq<char>, haveEq: bool)
    ensures MeaningOf(line, haveEq).Accept? <==> Complete(line, haveEq)
    ensures Complete(line, haveEq) ==>
              var r := MeaningOf(line, haveEq).rec;
              && Some(r.kind) == KindOfLetter(line[0])
              && r.slot == line[1] as int - '1' as int
              && r.vals <= WordsOf(line)
  {
    hide Owner, Payload, WordsOf;
    OwnerIsRead(line);
  }

  /** A line is passed over exactly when it starts with none of the transmit letters and
      with no device letter and digit; every other line is a record or ends the load. */
  lemma IgnoredExactly(line: seq<char>, haveEq: bool)
    ensures MeaningOf(line, haveEq).Ignore?
            <==> line == [] || (line[0] !in {'E', 'F', 'G'}
                                && !(line[0] in {'A', 'B', 'C', 'D'} && |line| >= 2 && '1' <= line[1] <= '3'))
  {
    hide Payload, Needed, SizesOk;
  }

  // ---------------------------------------------------- from the file's lines

  /** No good line is for a cell. */
  ghost predicate NoneOwns(lines: seq<seq<char>>, haveEq: bool, c: Cell) {
    forall j | 0 <= j < |lines| ::
      MeaningOf(lines[j], haveEq).Accept? ==>
        var r := MeaningOf(lines[j], haveEq).rec; !Owns(r.kind, r.slot, c)
  }

  lemma {:induction false} LinesKeep(m: Tables, lines: seq<seq<char>>, haveEq: bool, cal: EqCal, c: Cell)
    requires NoneOwns(lines, haveEq, c)
    ensures Get(LoadLines(m, lines, haveEq, cal).tables, c) == Get(m, c)
    decreases |lines|
  {
    hide MeaningOf, Apply, Owns;
    if lines != [] {
      var rest := lines[1..];
      AcceptedIsWellformed(lines[0], haveEq);
      assert NoneOwns(rest, haveEq, c) by { assert forall j | 0 <= j < |rest| :: rest[j] == lines[j + 1]; }
      match MeaningOf(lines[0], haveEq) {
        case Reject =>
        case Ignore => LinesKeep(m, rest, haveEq, cal, c);
        case Accept(r) =>
          RecordKeepsOtherSlots(m, r, cal);
          LinesKeep(Apply(m, r, cal), rest, haveEq, cal, c);
      }
    }
  }

  function Code(line: seq<char>): seq<char> {
    if |line| >= 2 then line[..2] else line
  }

  /** No later complete line starts with the same letter and digit. */
  ghost predicate LastWithCode(lines: seq<seq<char>>, haveEq: bool, k: nat)
    requires k < |lines|
  {
    forall j | k < j < |lines| :: Complete(lines[j], haveEq) ==> Code(lines[j]) != Code(lines[k])
  }

  lemma SameCode(a: seq<char>, b: seq<char>, haveEq: bool)
    requires Complete(a, haveEq) && Complete(b, haveEq)
    requires KindOfLetter(a[0]) == KindOfLetter(b[0]) && a[1] == b[1]
    ensures Code(a) == Code(b)
  {
    hide WordsOf;
  }

  lemma LaterLinesAreElsewhere(lines: seq<seq<char>>, haveEq: bool, c: Cell)
    requires lines != [] && Complete(lines[0], haveEq) && LastWithCode(lines, haveEq, 0)
    requires MeaningOf(lines[0], haveEq).Accept?
    requires var r := MeaningOf(lines[0], haveEq).rec;
             Owns(r.kind, r.slot, c) && c !in {TxFlag(0), AgcFlag(0), NsFlag(0)}
    ensures NoneOwns(lines[1..], haveEq, c)
  {
    hide MeaningOf, Owns, Complete, Code;
    var r := MeaningOf(lines[0], haveEq).rec;
    LineIsRead(lines[0], haveEq);
    forall j | 0 <= j < |lines[1..]| && MeaningOf(lines[1..][j], haveEq).Accept?
      ensures var q := MeaningOf(lines[1..][j], haveEq).rec; !Owns(q.kind, q.slot, c)
    {
      var line := lines[1..][j];
      assert line == lines[j + 1];
      LineIsRead(line, haveEq);
      var q := MeaningOf(line, haveEq).rec;
      if Owns(q.kind, q.slot, c) {
        SlotsAreSeparate(r, q, c);
        SameCode(line, lines[0], haveEq);
      }
    }
  }

  /** Whatever the tables were: in a file without a bad line, the last complete line
      with a letter and digit decides every entry of its slot. */
  lemma {:induction false} LinesAreLaidOut(m: Tables, lines: seq<seq<char>>, haveEq: bool, cal: EqCal, k: nat)
    requires k < |lines| && Complete(lines[k], haveEq) && LastWithCode(lines, haveEq, k)
    requires LoadLines(m, lines, haveEq, cal).bad == None
    ensures MeaningOf(lines[k], haveEq).Accept? && Wellformed(MeaningOf(lines[k], haveEq).rec)
    ensures LaidOut(LoadLines(m, lines, haveEq, cal).tables, MeaningOf(lines[k], haveEq).rec, cal)
    decreases k
  {
    hide MeaningOf, Apply, LaidOut, Complete, Owns, Needed, SizesOk, AreWords, Code;
    LineIsRead(lines[k], haveEq);
    AcceptedIsWellformed(lines[k], haveEq);
    AcceptedIsWellformed(lines[0], haveEq);
    var rest := lines[1..];
    if k == 0 {
      var r := MeaningOf(lines[0], haveEq).rec;
      var t := Apply(m, r, cal);
      RecordIsLaidOut(m, r, cal);
      forall c | Owns(r.kind, r.slot, c) && c !in {TxFlag(0), AgcFlag(0), NsFlag(0)}
        ensures Get(t, c) == Get(LoadLines(t, rest, haveEq, cal).tables, c)
      {
        LaterLinesAreElsewhere(lines, haveEq, c);
        LinesKeep(t, rest, haveEq, cal, c);
      }
      LaidOutCarries(t, LoadLines(t, rest, haveEq, cal).tables, r, cal);
    } else {
      assert rest[k - 1] == lines[k];
      assert LastWithCode(rest, haveEq, k - 1) by { assert forall j | 0 <= j < |rest| :: rest[j] == lines[j + 1]; }
      match MeaningOf(lines[0], haveEq) {
        case Ignore => LinesAreLaidOut(m, rest, haveEq, cal, k - 1);
        case Accept(r) => LinesAreLaidOut(Apply(m, r, cal), rest, haveEq, cal, k - 1);
        case Reject =>
      }
    }
  }

  /** The flag entries among those laid out. */
  lemma FlagsAreLaid(t: Tables, r: GoodRecord, cal: EqCal)
    requires LaidOut(t, r, cal)
    ensures r.kind.Iir? ==> Get(t, IirFlag(r.slot)) == r.vals[48]
    ensures r.kind.Adrc? ==> Get(t, AdrcFlag(r.slot)) == r.vals[0]
    ensures r.kind.Eq? ==> Get(t, EqFlag(r.slot)) == r.vals[0]
    ensures r.kind.Mbadrc? ==> r.vals[0] >= 0 && r.vals[3] >= 0 && Get(t, MbFlag(r.slot)) == r.vals[7 + 10 * r.vals[0] + r.vals[3] / 2]
  {
    hide Get, EqBandLaid, MbHeaderLaid, TxIirLaid, AgcLaid, NsLaid;
  }
}
