/**
 The acoustic filter tables of the audio HAL and what one record of the filter
 file means for them.

 Every scalar of the C structures is one named cell; a table that was never
 written holds zero, as after the memset calls of the constructor.
 */
module FilterTables {
  import opened CStrings

  datatype Kind = Iir | Adrc | Eq | Mbadrc | TxIir | Agc | Ns

  datatype Cell =
    | IirParam(dev: int, i: int) | IirBands(dev: int) | IirFlag(dev: int)
    | AdrcFlag(dev: int) | AdrcParam(dev: int, i: int)
    | EqFlag(dev: int) | EqBands(dev: int) | EqParam(dev: int, i: int)
    | MbBands(dev: int) | MbDownSamp(dev: int) | MbDelay(dev: int) | MbExtSize(dev: int)
    | MbExtPartition(dev: int) | MbExtMsw(dev: int) | MbExtLsw(dev: int)
    | MbBand(dev: int, band: int, i: int) | MbExt(dev: int, i: int) | MbFlag(dev: int)
    | TxParam(rate: int, i: int) | TxActive(rate: int) | TxBands(rate: int) | TxCmd(rate: int)
    | AgcCmd(rate: int) | AgcMask(rate: int) | AgcEnable(rate: int) | AgcStatic(rate: int)
    | AgcAdaptive(rate: int) | AgcParam(rate: int, i: int)
    | NsCmd(rate: int) | NsEcMode(rate: int) | NsDensGamma(rate: int) | NsBlockSize(rate: int)
    | NsLimit(rate: int) | NsLimitD(rate: int) | NsWbGammaE(rate: int) | NsWbGammaN(rate: int)
    | TxFlag(dev: int) | AgcFlag(dev: int) | NsFlag(dev: int)
    | PreprocBit(rate: int, kind: Kind)   // one bit of enable_preproc_mask[rate]

  type Tables = map<Cell, int>

  function Get(m: Tables, c: Cell): int {
    if c in m then m[c] else 0
  }

  /** The array bounds of the declarations in AudioHardware.h. */
  predicate InRange(c: Cell) {
    match c
    case IirParam(d, i) => 0 <= d < 3 && 0 <= i < 48
    case AdrcParam(d, i) => 0 <= d < 3 && 0 <= i < 8
    case EqParam(d, i) => 0 <= d < 3 && 0 <= i < 132
    case MbBand(d, b, i) => 0 <= d < 3 && 0 <= b < 5 && 0 <= i < 10
    case MbExt(d, i) => 0 <= d < 3 && 0 <= i < 196
    case TxParam(r, i) => 0 <= r < 9 && 0 <= i < 48
    case AgcParam(r, i) => 0 <= r < 9 && 0 <= i < 19
    case IirBands(d) => 0 <= d < 3 case IirFlag(d) => 0 <= d < 3
    case AdrcFlag(d) => 0 <= d < 3
    case EqFlag(d) => 0 <= d < 3 case EqBands(d) => 0 <= d < 3
    case MbBands(d) => 0 <= d < 3 case MbDownSamp(d) => 0 <= d < 3 case MbDelay(d) => 0 <= d < 3
    case MbExtSize(d) => 0 <= d < 3 case MbExtPartition(d) => 0 <= d < 3
    case MbExtMsw(d) => 0 <= d < 3 case MbExtLsw(d) => 0 <= d < 3 case MbFlag(d) => 0 <= d < 3
    case TxFlag(d) => 0 <= d < 3 case AgcFlag(d) => 0 <= d < 3 case NsFlag(d) => 0 <= d < 3
    case TxActive(r) => 0 <= r < 9 case TxBands(r) => 0 <= r < 9 case TxCmd(r) => 0 <= r < 9
    case AgcCmd(r) => 0 <= r < 9 case AgcMask(r) => 0 <= r < 9 case AgcEnable(r) => 0 <= r < 9
    case AgcStatic(r) => 0 <= r < 9 case AgcAdaptive(r) => 0 <= r < 9
    case NsCmd(r) => 0 <= r < 9 case NsEcMode(r) => 0 <= r < 9 case NsDensGamma(r) => 0 <= r < 9
    case NsBlockSize(r) => 0 <= r < 9 case NsLimit(r) => 0 <= r < 9 case NsLimitD(r) => 0 <= r < 9
    case NsWbGammaE(r) => 0 <= r < 9 case NsWbGammaN(r) => 0 <= r < 9
    case PreprocBit(r, _) => 0 <= r < 9
  }

  function ToInt16(v: int): int {
    if v >= 0x8000 then v - 0x1_0000 else v
  }

  /** The value a cell holds after a 16-bit word is stored in it. */
  function Stored(c: Cell, v: int): int {
    if c.MbExt? || c.AgcAdaptive? then ToInt16(v) else v
  }

  // ------------------------------------------------------------- records

  /** A recognised record: which tables it is for, and the words after its
      header (and description, where the record has one). */
  datatype Record = Record(kind: Kind, slot: nat, vals: seq<int>)

  function Val(vals: seq<int>, k: nat): int {
    if k < |vals| then vals[k] else 0
  }

  /** How many words a record needs. */
  function Needed(kind: Kind, vals: seq<int>): (n: int)
  {
    match kind
    case Iir => 50
    case Adrc => 9
    case Eq => 33
    case Mbadrc => 8 + 10 * Val(vals, 0) + Val(vals, 3) / 2
    case TxIir => 52
    case Agc => 25
    case Ns => 9
  }

  datatype Target = Skip | Put(cell: Cell)

  /** The word order of the TX IIR table is swapped in pairs below index 40. */
  function Swapped(i: int): int {
    if i >= 40 then i else if i % 2 != 0 then i - 1 else i + 1
  }

  function MbHeader(slot: nat, k: nat): Target
    requires k < 7
  {
    match k
    case 0 => Put(MbBands(slot))
    case 1 => Put(MbDownSamp(slot))
    case 2 => Put(MbDelay(slot))
    case 3 => Put(MbExtSize(slot))
    case 4 => Put(MbExtPartition(slot))
    case 5 => Put(MbExtMsw(slot))
    case _ => Put(MbExtLsw(slot))
  }

  function AgcHeader(slot: nat, k: nat): Target
    requires k < 5
  {
    match k
    case 0 => Put(AgcCmd(slot))
    case 1 => Put(AgcMask(slot))
    case 2 => Put(AgcEnable(slot))
    case 3 => Put(AgcStatic(slot))
    case _ => Put(AgcAdaptive(slot))
  }

  function NsHeader(slot: nat, k: nat): Target
    requires k < 8
  {
    match k
    case 0 => Put(NsCmd(slot))
    case 1 => Put(NsEcMode(slot))
    case 2 => Put(NsDensGamma(slot))
    case 3 => Put(NsBlockSize(slot))
    case 4 => Put(NsLimit(slot))
    case 5 => Put(NsLimitD(slot))
    case 6 => Put(NsWbGammaE(slot))
    case _ => Put(NsWbGammaN(slot))
  }

  /** Where word k of a record belongs. */
  function TargetOf(kind: Kind, slot: nat, vals: seq<int>, k: nat): Target {
    match kind
    case Iir =>
      if k < 48 then Put(IirParam(slot, k)) else if k == 48 then Put(IirFlag(slot)) else Put(IirBands(slot))
    case Adrc =>
      if k == 0 then Put(AdrcFlag(slot)) else Put(AdrcParam(slot, k - 1))
    case Eq =>
      if k == 0 then Put(EqFlag(slot)) else Skip
    case Mbadrc =>
      var bands, ext := Val(vals, 0), Val(vals, 3) / 2;
      if k < 7 then MbHeader(slot, k)
      else if k < 7 + 10 * bands then Put(MbBand(slot, (k - 7) / 10, (k - 7) % 10))
      else if k < 7 + 10 * bands + ext then Put(MbExt(slot, k - 7 - 10 * bands))
      else Put(MbFlag(slot))
    case TxIir =>
      if k < 48 then Put(TxParam(slot, Swapped(k)))
      else if k == 48 then Put(TxActive(slot))
      else if k == 49 then Put(TxFlag(0))
      else if k == 50 then Put(TxBands(slot)) else Skip
    case Agc =>
      if k < 5 then AgcHeader(slot, k)
      else if k < 24 then Put(AgcParam(slot, k - 5)) else Put(AgcFlag(0))
    case Ns =>
      if k < 8 then NsHeader(slot, k)
      else Put(NsFlag(0))
  }

  predicate SlotOk(kind: Kind, slot: nat) {
    slot < (if kind.TxIir? || kind.Agc? || kind.Ns? then 9 else 3)
  }

  /** The sizes the loader checks before it uses them as array bounds. */
  predicate SizesOk(kind: Kind, vals: seq<int>) {
    kind.Mbadrc? ==> Val(vals, 0) <= 5 && Val(vals, 3) <= 392
  }

  ghost predicate AreWords(vals: seq<int>) {
    forall i | 0 <= i < |vals| :: 0 <= vals[i] < 0x1_0000
  }

  ghost predicate Wellformed(r: Record) {
    && SlotOk(r.kind, r.slot)
    && SizesOk(r.kind, r.vals)
    && |r.vals| == Needed(r.kind, r.vals)
    && AreWords(r.vals)
  }

  type GoodRecord = r: Record | Wellformed(r)
    witness Record(Ns, 0, [0, 0, 0, 0, 0, 0, 0, 0, 0])

  /** The tables after the first k words of a record were stored. */
  function PutN(m: Tables, kind: Kind, slot: nat, vals: seq<int>, k: nat): Tables
    requires k <= |vals|
  {
    if k == 0 then m
    else
      var before := PutN(m, kind, slot, vals, k - 1);
      match TargetOf(kind, slot, vals, k - 1)
      case Skip => before
      case Put(c) => before[c := Stored(c, vals[k - 1])]
  }

  // ----------------------------------------------------------- equalizer

  /** What the vendor routine returns for one band: numerators, denominators and
      the first shift word. */
  datatype Coefficients = Coefficients(num: seq<int>, den: seq<int>, shift: int)

  type EqOut = c: Coefficients | |c.num| == 6 && |c.den| == 4
    witness Coefficients([0, 0, 0, 0, 0, 0], [0, 0, 0, 0], 0)

  /** The vendor routine, uninterpreted: gain, frequency, type, quality. */
  type EqCal = (int, int, int, int) -> EqOut

  /** What a slot of eq_filter.params means. */
  datatype EqPart = Num(band: int, j: int) | Den(band: int, j: int) | Shift(band: int) | Unused

  function PartAt(bands: int, p: int): EqPart {
    if p < 6 * bands then Num(p / 6, p % 6)
    else if p < 10 * bands then Den((p - 6 * bands) / 4, (p - 6 * bands) % 4)
    else if p < 11 * bands then Shift(p - 10 * bands)
    else Unused
  }

  /** The index arithmetic of the stores in the equalizer record. */
  function IndexOf(bands: int, part: EqPart): int
    requires !part.Unused?
  {
    match part
    case Num(i, j) => i * 6 + j
    case Den(i, j) => bands * 6 + i * 4 + j
    case Shift(i) => bands * 10 + i
  }

  predicate PartOk(bands: int, part: EqPart) {
    match part
    case Num(i, j) => 0 <= i < bands && 0 <= j < 6
    case Den(i, j) => 0 <= i < bands && 0 <= j < 4
    case Shift(i) => 0 <= i < bands
    case Unused => false
  }

  /** Numerators, denominators and shifts tile the first 11 * bands slots, and up
      to 12 bands they stay inside the 132 slots of the structure. */
  lemma EqualizerTiles(bands: int, part: EqPart, p: int)
    requires 0 <= bands <= 12
    ensures PartOk(bands, part) ==>
              0 <= IndexOf(bands, part) < 11 * bands <= 132 && PartAt(bands, IndexOf(bands, part)) == part
    ensures 0 <= p < 11 * bands ==>
              PartOk(bands, PartAt(bands, p)) && IndexOf(bands, PartAt(bands, p)) == p
  {
  }

  /** The coefficients of one band of an equalizer record. */
  function BandOut(vals: seq<int>, band: nat, cal: EqCal): EqOut
    requires 4 * band + 4 < |vals|
  {
    cal(ToInt16(vals[4 * band + 1]), vals[4 * band + 2], vals[4 * band + 3], vals[4 * band + 4])
  }

  const EQ_BANDS := 8

  /** The value of one slot of the equalizer once the first `done` bands of a
      record are in place. */
  function EqValue(vals: seq<int>, done: nat, p: int, cal: EqCal): int
    requires done <= EQ_BANDS && |vals| >= 4 * done + 1 && 0 <= p < 132
  {
    match PartAt(EQ_BANDS, p)
    case Num(i, j) => if i < done then BandOut(vals, i, cal).num[j] else 0
    case Den(i, j) => if i < done then BandOut(vals, i, cal).den[j] else 0
    case Shift(i) => if i < done then BandOut(vals, i, cal).shift else 0
    case Unused => 0
  }

  function EqTable(slot: nat, vals: seq<int>, done: nat, cal: EqCal): Tables
    requires done <= EQ_BANDS && |vals| >= 4 * done + 1
  {
    map p | 0 <= p < 132 :: EqParam(slot, p) := EqValue(vals, done, p, cal)
  }

  /** A run of consecutive slots of one equalizer table. */
  function StoreRange(m: Tables, slot: nat, lo: int, vs: seq<int>): Tables {
    m + map p | lo <= p < lo + |vs| :: EqParam(slot, p) := vs[p - lo]
  }

  /** Numerators, denominators and shift of one band, by the index arithmetic. */
  function StoreParts(m: Tables, slot: nat, bands: int, i: int, out: EqOut): Tables {
    StoreRange(
      StoreRange(
        StoreRange(m, slot, IndexOf(bands, Num(i, 0)), out.num),
        slot, IndexOf(bands, Den(i, 0)), out.den),
      slot, IndexOf(bands, Shift(i)), [out.shift])
  }

  lemma StoreNone(m: Tables, slot: nat, lo: int)
    ensures StoreRange(m, slot, lo, []) == m
  {
  }

  lemma StoreOneMore(m: Tables, slot: nat, lo: int, vs: seq<int>, v: int)
    ensures StoreRange(m, slot, lo, vs)[EqParam(slot, lo + |vs|) := v] == StoreRange(m, slot, lo, vs + [v])
  {
  }

  lemma StoreRangeGet(m: Tables, slot: nat, lo: int, vs: seq<int>, c: Cell)
    ensures Get(StoreRange(m, slot, lo, vs), c)
            == if c.EqParam? && c.dev == slot && lo <= c.i < lo + |vs| then vs[c.i - lo] else Get(m, c)
    ensures c in StoreRange(m, slot, lo, vs) <==>
              c in m || (c.EqParam? && c.dev == slot && lo <= c.i < lo + |vs|)
  {
  }

  lemma EqTableGet(m: Tables, slot: nat, vals: seq<int>, done: nat, cal: EqCal, c: Cell)
    requires done <= EQ_BANDS && |vals| >= 4 * done + 1
    ensures var in_ := c.EqParam? && c.dev == slot && 0 <= c.i < 132;
            && Get(m + EqTable(slot, vals, done, cal), c)
               == (if in_ then EqValue(vals, done, c.i, cal) else Get(m, c))
            && (c in m + EqTable(slot, vals, done, cal) <==> c in m || in_)
  {
  }

  lemma EqValueStep(vals: seq<int>, i: nat, p: int, cal: EqCal)
    requires i < EQ_BANDS && |vals| >= 4 * i + 5 && 0 <= p < 132
    ensures var out := BandOut(vals, i, cal);
            EqValue(vals, i + 1, p, cal)
            == if 6 * i <= p < 6 * i + 6 then out.num[p - 6 * i]
               else if 48 + 4 * i <= p < 48 + 4 * i + 4 then out.den[p - 48 - 4 * i]
               else if p == 80 + i then out.shift
               else EqValue(vals, i, p, cal)
  {
  }

  lemma SameTables(m: Tables, n: Tables)
    requires forall c: Cell :: (c in m <==> c in n) && Get(m, c) == Get(n, c)
    ensures m == n
  {
    assert m.Keys == n.Keys;
    forall c | c in m ensures m[c] == n[c] { assert Get(m, c) == Get(n, c); }
  }

  /** Storing one more band turns the table of i bands into that of i + 1. */
  lemma BandAdded(m: Tables, slot: nat, vals: seq<int>, i: nat, cal: EqCal)
    requires i < EQ_BANDS && |vals| >= 4 * i + 5
    ensures StoreParts(m + EqTable(slot, vals, i, cal), slot, EQ_BANDS, i, BandOut(vals, i, cal))
            == m + EqTable(slot, vals, i + 1, cal)
  {
    hide StoreRange, EqTable, EqValue, BandOut;
    var t := m + EqTable(slot, vals, i, cal);
    var out := BandOut(vals, i, cal);
    var u := StoreRange(t, slot, 6 * i, out.num);
    var v := StoreRange(u, slot, 48 + 4 * i, out.den);
    var w := StoreRange(v, slot, 80 + i, [out.shift]);
    var goal := m + EqTable(slot, vals, i + 1, cal);
    forall c: Cell
      ensures (c in w <==> c in goal) && Get(w, c) == Get(goal, c)
    {
      StoreRangeGet(t, slot, 6 * i, out.num, c);
      StoreRangeGet(u, slot, 48 + 4 * i, out.den, c);
      StoreRangeGet(v, slot, 80 + i, [out.shift], c);
      EqTableGet(m, slot, vals, i, cal, c);
      EqTableGet(m, slot, vals, i + 1, cal, c);
      if c.EqParam? && c.dev == slot && 0 <= c.i < 132 {
        EqValueStep(vals, i, c.i, cal);
      }
    }
    SameTables(w, goal);
  }

  // ------------------------------------------------ the effect of a record

  /** What a record does beyond storing its words. */
  function Finish(m: Tables, kind: Kind, slot: nat, vals: seq<int>, cal: EqCal): Tables
    requires |vals| >= Needed(kind, vals)
  {
    match kind
    case Eq => m[EqBands(slot) := EQ_BANDS] + EqTable(slot, vals, EQ_BANDS, cal)
    case TxIir =>
      var n := m[TxCmd(slot) := 0];
      if vals[49] != 0 then n[PreprocBit(slot, TxIir) := 1] else n
    case Agc => if vals[24] != 0 then m[PreprocBit(slot, Agc) := 1] else m
    case Ns => if vals[8] != 0 then m[PreprocBit(slot, Ns) := 1] else m
    case _ => m
  }

  function Effect(m: Tables, kind: Kind, slot: nat, vals: seq<int>, cal: EqCal): Tables
    requires 0 <= Needed(kind, vals) <= |vals|
  {
    Finish(PutN(m, kind, slot, vals, Needed(kind, vals)), kind, slot, vals, cal)
  }

  function Apply(m: Tables, r: Record, cal: EqCal): Tables
    requires 0 <= Needed(r.kind, r.vals) == |r.vals|
  {
    Effect(m, r.kind, r.slot, r.vals, cal)
  }

  lemma {:induction false} PutNOfPrefix(m: Tables, kind: Kind, slot: nat, vals: seq<int>, n: nat, k: nat)
    requires k <= n <= |vals| && (kind.Mbadrc? ==> n >= 4)
    ensures PutN(m, kind, slot, vals[..n], k) == PutN(m, kind, slot, vals, k)
  {
    if k > 0 {
      assert kind.Mbadrc? ==> vals[..n][0] == vals[0] && vals[..n][3] == vals[3];
      PutNOfPrefix(m, kind, slot, vals, n, k - 1);
    }
  }

  /** Words after the ones a record needs do not matter. */
  lemma SurplusWordsDoNotCount(m: Tables, kind: Kind, slot: nat, vals: seq<int>, cal: EqCal)
    requires 0 <= Needed(kind, vals) <= |vals| && (kind.Mbadrc? ==> Val(vals, 0) >= 0 && Val(vals, 3) >= 0)
    ensures var n := Needed(kind, vals);
            Needed(kind, vals[..n]) == n && Effect(m, kind, slot, vals[..n], cal) == Effect(m, kind, slot, vals, cal)
  {
    var n := Needed(kind, vals);
    assert kind.Mbadrc? ==> vals[..n][0] == vals[0] && vals[..n][3] == vals[3];
    PutNOfPrefix(m, kind, slot, vals, n, n);
    if kind.Eq? {
      forall p | 0 <= p < 132
        ensures EqValue(vals[..n], EQ_BANDS, p, cal) == EqValue(vals, EQ_BANDS, p, cal)
      {
      }
      assert EqTable(slot, vals[..n], EQ_BANDS, cal) == EqTable(slot, vals, EQ_BANDS, cal);
    }
  }

  /** A cleared equalizer table. */
  function EqZeros(slot: nat): Tables {
    map p | 0 <= p < 132 :: EqParam(slot, p) := 0
  }

  /** The tables while an equalizer record is being worked off: its flag, the
      band count and the first `done` bands. */
  function EqProgress(m: Tables, slot: nat, vals: seq<int>, done: nat, cal: EqCal): Tables
    requires done <= EQ_BANDS && |vals| >= 4 * done + 1
  {
    m[EqFlag(slot) := vals[0]][EqBands(slot) := EQ_BANDS] + EqTable(slot, vals, done, cal)
  }

  /** An equalizer record stores one word, the rest feed the vendor routine. */
  lemma {:induction false} PutNOfEqualizer(m: Tables, slot: nat, vals: seq<int>, k: nat)
    requires 1 <= k <= |vals|
    ensures PutN(m, Eq, slot, vals, k) == m[EqFlag(slot) := vals[0]]
  {
    if k > 1 {
      PutNOfEqualizer(m, slot, vals, k - 1);
    } else {
      assert PutN(m, Eq, slot, vals, 0) == m;
    }
  }

  lemma EqProgressStarts(m: Tables, slot: nat, vals: seq<int>, cal: EqCal)
    requires |vals| >= 1
    ensures (PutN(m, Eq, slot, vals, 1) + EqZeros(slot))[EqBands(slot) := 8] == EqProgress(m, slot, vals, 0, cal)
  {
    PutNOfEqualizer(m, slot, vals, 1);
    assert EqTable(slot, vals, 0, cal) == EqZeros(slot);
    assert EqBands(slot) !in EqZeros(slot);
  }

  lemma EqProgressStep(m: Tables, slot: nat, vals: seq<int>, i: nat, cal: EqCal)
    requires i < EQ_BANDS && |vals| >= 4 * i + 5
    ensures StoreParts(EqProgress(m, slot, vals, i, cal), slot, EQ_BANDS, i,
                       cal(ToInt16(vals[4 * i + 1]), vals[4 * i + 2], vals[4 * i + 3], vals[4 * i + 4]))
            == EqProgress(m, slot, vals, i + 1, cal)
  {
    BandAdded(m[EqFlag(slot) := vals[0]][EqBands(slot) := EQ_BANDS], slot, vals, i, cal);
  }

  lemma EqProgressEnds(m: Tables, slot: nat, vals: seq<int>, cal: EqCal)
    requires |vals| >= 33
    ensures EqProgress(m, slot, vals, 8, cal) == Effect(m, Eq, slot, vals, cal)
  {
    PutNOfEqualizer(m, slot, vals, 33);
  }

  /** The cells a record may touch: its own device or rate slot, and the single
      flag the transmit records share (the loader indexes it with device 0). */
  predicate Owns(kind: Kind, slot: nat, c: Cell) {
    match kind
    case Iir => (c.IirParam? || c.IirBands? || c.IirFlag?) && c.dev == slot
    case Adrc => (c.AdrcFlag? || c.AdrcParam?) && c.dev == slot
    case Eq => (c.EqFlag? || c.EqBands? || c.EqParam?) && c.dev == slot
    case Mbadrc =>
      && (c.MbBands? || c.MbDownSamp? || c.MbDelay? || c.MbExtSize? || c.MbExtPartition? || c.MbExtMsw?
          || c.MbExtLsw? || c.MbBand? || c.MbExt? || c.MbFlag?)
      && c.dev == slot
    case TxIir =>
      || ((c.TxParam? || c.TxActive? || c.TxBands? || c.TxCmd?) && c.rate == slot)
      || c == TxFlag(0) || c == PreprocBit(slot, TxIir)
    case Agc =>
      || ((c.AgcCmd? || c.AgcMask? || c.AgcEnable? || c.AgcStatic? || c.AgcAdaptive? || c.AgcParam?)
          && c.rate == slot)
      || c == AgcFlag(0) || c == PreprocBit(slot, Agc)
    case Ns =>
      || ((c.NsCmd? || c.NsEcMode? || c.NsDensGamma? || c.NsBlockSize? || c.NsLimit? || c.NsLimitD?
           || c.NsWbGammaE? || c.NsWbGammaN?) && c.rate == slot)
      || c == NsFlag(0) || c == PreprocBit(slot, Ns)
  }

  ghost predicate Outside(m: Tables, m0: Tables, kind: Kind, slot: nat) {
    forall c | !Owns(kind, slot, c) :: Get(m, c) == Get(m0, c)
  }

  lemma EqProgressOutside(m: Tables, slot: nat, vals: seq<int>, done: nat, cal: EqCal)
    requires done <= EQ_BANDS && |vals| >= 4 * done + 1
    ensures Outside(EqProgress(m, slot, vals, done, cal), m, Eq, slot)
    ensures Get(EqProgress(m, slot, vals, done, cal), EqBands(slot)) == EQ_BANDS
  {
  }

  lemma TargetIsOwned(kind: Kind, slot: nat, vals: seq<int>, k: nat)
    ensures match TargetOf(kind, slot, vals, k) case Skip => true case Put(c) => Owns(kind, slot, c)
  {
  }

  /** Every store of an acceptable record is inside its C array. */
  lemma TargetIsInRange(kind: Kind, slot: nat, vals: seq<int>, k: nat)
    requires SlotOk(kind, slot) && SizesOk(kind, vals) && k < Needed(kind, vals)
    ensures match TargetOf(kind, slot, vals, k) case Skip => true case Put(c) => InRange(c)
  {
  }

  /** No two words of a record go to the same cell. */
  lemma TargetsAreDistinct(kind: Kind, slot: nat, vals: seq<int>, k: nat, l: nat)
    requires k < l < Needed(kind, vals) && (kind.Mbadrc? ==> Val(vals, 0) >= 0)
    requires TargetOf(kind, slot, vals, k).Put?
    ensures TargetOf(kind, slot, vals, k) != TargetOf(kind, slot, vals, l)
  {
  }

  lemma {:induction false} PutNOutside(m: Tables, kind: Kind, slot: nat, vals: seq<int>, k: nat)
    requires k <= |vals|
    ensures Outside(PutN(m, kind, slot, vals, k), m, kind, slot)
  {
    if k > 0 {
      PutNOutside(m, kind, slot, vals, k - 1);
      TargetIsOwned(kind, slot, vals, k - 1);
    }
  }

  lemma {:induction false} PutNStores(m: Tables, kind: Kind, slot: nat, vals: seq<int>, k: nat, l: nat)
    requires k < l <= |vals| && l <= Needed(kind, vals) && (kind.Mbadrc? ==> Val(vals, 0) >= 0)
    ensures match TargetOf(kind, slot, vals, k)
            case Skip => true
            case Put(c) => Get(PutN(m, kind, slot, vals, l), c) == Stored(c, vals[k])
  {
    if k < l - 1 {
      PutNStores(m, kind, slot, vals, k, l - 1);
      if TargetOf(kind, slot, vals, k).Put? {
        TargetsAreDistinct(kind, slot, vals, k, l - 1);
      }
    }
  }

  /** A record changes nothing but its own slot. */
  lemma RecordKeepsOtherSlots(m: Tables, r: Record, cal: EqCal)
    requires Wellformed(r)
    ensures Outside(Apply(m, r, cal), m, r.kind, r.slot)
  {
    PutNOutside(m, r.kind, r.slot, r.vals, |r.vals|);
  }

  /** After a record every word it carries is in the cell it names. */
  lemma RecordIsStored(m: Tables, r: Record, cal: EqCal, k: nat)
    requires Wellformed(r) && k < |r.vals|
    ensures match TargetOf(r.kind, r.slot, r.vals, k)
            case Skip => true
            case Put(c) => Get(Apply(m, r, cal), c) == Stored(c, r.vals[k])
  {
    PutNStores(m, r.kind, r.slot, r.vals, k, |r.vals|);
  }

  /** An equalizer record leaves, at the slot of every part of every band, the
      coefficient the vendor routine computed for that band, and zero after them. */
  lemma EqualizerIsStored(m: Tables, r: Record, cal: EqCal, part: EqPart, p: int)
    requires Wellformed(r) && r.kind.Eq? && PartOk(EQ_BANDS, part) && 88 <= p < 132
    ensures Get(Apply(m, r, cal), EqBands(r.slot)) == EQ_BANDS
    ensures Get(Apply(m, r, cal), EqParam(r.slot, IndexOf(EQ_BANDS, part)))
            == match part
               case Num(i, j) => BandOut(r.vals, i, cal).num[j]
               case Den(i, j) => BandOut(r.vals, i, cal).den[j]
               case Shift(i) => BandOut(r.vals, i, cal).shift
    ensures Get(Apply(m, r, cal), EqParam(r.slot, p)) == 0
  {
    EqualizerTiles(EQ_BANDS, part, p);
    var q := IndexOf(EQ_BANDS, part);
    var table := EqTable(r.slot, r.vals, EQ_BANDS, cal);
    assert EqParam(r.slot, q) in table && EqParam(r.slot, p) in table && EqBands(r.slot) !in table;
  }

  /** The pair swap is its own inverse on the 48 words, so each is written once. */
  lemma SwapIsAnInvolution(i: int)
    requires 0 <= i < 48
    ensures 0 <= Swapped(i) < 48 && Swapped(Swapped(i)) == i
  {
  }
}
