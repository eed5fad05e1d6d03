/**
 Printing filter records as comma separated hexadecimal lines, and what loading
 the printed file gives back.
 */
module FilterRoundTrip {
  import opened CStrings
  import opened FilterTables
  import opened FilterLoader
  import opened Wrappers

  function Letter(kind: Kind): char {
    match kind
    case Iir => 'A' case Adrc => 'B' case Eq => 'C' case Mbadrc => 'D'
    case TxIir => 'E' case Agc => 'F' case Ns => 'G'
  }

  function PrintHeader(kind: Kind, slot: nat): seq<char>
    requires SlotOk(kind, slot)
  {
    [Letter(kind), ('1' as int + slot) as char] + if Leading(kind) == 2 then ",AUDFMT" else ""
  }

  function PrintWords(vals: seq<int>): seq<char>
    requires AreWords(vals)
  {
    if vals == [] then [] else "," + Hex4(vals[0]) + PrintWords(vals[1..])
  }

  function PrintRecord(r: GoodRecord): seq<char>
  {
    PrintHeader(r.kind, r.slot) + PrintWords(r.vals)
  }

  function PrintFile(rs: seq<GoodRecord>): seq<char>
  {
    if rs == [] then [] else PrintRecord(rs[0]) + "\n" + PrintFile(rs[1..])
  }

  function ApplyAll(m: Tables, rs: seq<GoodRecord>, cal: EqCal): Tables
    decreases |rs|
  {
    if rs == [] then m else ApplyAll(Apply(m, rs[0], cal), rs[1..], cal)
  }

  // ------------------------------------------------------------ one record

  ghost function HexAll(vals: seq<int>): seq<seq<char>>
    requires AreWords(vals)
  {
    seq(|vals|, k requires 0 <= k < |vals| => Hex4(vals[k]))
  }

  lemma {:induction false} FieldsOfWords(front: seq<char>, vals: seq<int>)
    requires AreWords(vals)
    ensures Fields(front + PrintWords(vals)) == Fields(front) + HexAll(vals)
    decreases |vals|
  {
    if vals == [] {
      assert front + PrintWords(vals) == front;
    } else {
      hide Fields, Hex4;
      var hex, rest := Hex4(vals[0]), PrintWords(vals[1..]);
      assert PrintWords(vals) == "," + hex + rest;
      FieldsOfWords(hex, vals[1..]);
      FieldsOfPiece(hex);
      hide PrintWords;
      assert front + PrintWords(vals) == front + "," + (hex + rest);
      FieldsAppend(front, hex + rest);
      assert HexAll(vals) == [hex] + HexAll(vals[1..]);
    }
  }

  lemma FieldsOfHeader(kind: Kind, slot: nat)
    requires SlotOk(kind, slot)
    ensures |Fields(PrintHeader(kind, slot))| == Leading(kind)
  {
    hide Fields;
    var id := [Letter(kind), ('1' as int + slot) as char];
    assert ',' !in id;
    FieldsOfPiece(id);
    if Leading(kind) == 2 {
      FieldsOfPiece("AUDFMT");
      FieldsAppend(id, "AUDFMT");
      assert PrintHeader(kind, slot) == id + "," + "AUDFMT";
    } else {
      assert PrintHeader(kind, slot) == id;
    }
  }

  lemma WordsOfHex(vals: seq<int>)
    requires AreWords(vals)
    ensures Words(HexAll(vals)) == vals
  {
    forall k | 0 <= k < |vals| ensures Word(HexAll(vals)[k]) == vals[k] {
      HexRoundTrip(vals[k]);
    }
  }

  /** A printed record is read back as that record. */
  lemma RecordRoundTrip(r: Record, haveEq: bool)
    requires Wellformed(r) && (r.kind.Eq? ==> haveEq)
    ensures MeaningOf(PrintRecord(r), haveEq) == Accept(r)
  {
    var head := PrintHeader(r.kind, r.slot);
    var line := PrintRecord(r);
    assert line[0] == head[0] && line[1] == head[1];
    assert Owner(line) == Some((r.kind, r.slot));
    FieldsOfWords(head, r.vals);
    FieldsOfHeader(r.kind, r.slot);
    assert Fields(line)[Leading(r.kind)..] == HexAll(r.vals);
    WordsOfHex(r.vals);
    assert r.vals[..|r.vals|] == r.vals;
  }

  lemma {:induction false} WordsHaveNoNewline(vals: seq<int>)
    requires AreWords(vals)
    ensures '\n' !in PrintWords(vals) && NUL !in PrintWords(vals)
    decreases |vals|
  {
    if vals != [] { WordsHaveNoNewline(vals[1..]); }
  }

  lemma RecordIsOneLine(r: GoodRecord)
    ensures '\n' !in PrintRecord(r) && NUL !in PrintRecord(r)
  {
    WordsHaveNoNewline(r.vals);
  }

  // --------------------------------------------------------- the whole file

  /** Loading a printed file succeeds and has exactly the effect of its records,
      whatever the tables were and whatever follows a NUL behind it. */
  lemma {:induction false} FileRoundTrip(m: Tables, rs: seq<GoodRecord>, haveEq: bool, cal: EqCal, after: seq<char>)
    requires forall i | 0 <= i < |rs| :: rs[i].kind.Eq? ==> haveEq
    requires after != [] ==> after[0] == NUL
    ensures LoadLines(m, Lines(PrintFile(rs) + after), haveEq, cal) == Loaded(ApplyAll(m, rs, cal), None)
    decreases |rs|
  {
    hide MeaningOf, Lines, LoadLines, PrintWords, PrintHeader, Apply, TargetOf;
    if rs == [] {
      LoadNone(haveEq, cal);
      LinesEnd(PrintFile(rs) + after, 0);
    } else {
      var line := PrintRecord(rs[0]);
      var rest := PrintFile(rs[1..]) + after;
      RecordIsOneLine(rs[0]);
      assert PrintFile(rs) + after == line + "\n" + rest;
      LinesCons(line, rest);
      RecordRoundTrip(rs[0], haveEq);
      LoadCons(m, line, Lines(rest), haveEq, cal);
      FileRoundTrip(Apply(m, rs[0], cal), rs[1..], haveEq, cal, after);
    }
  }

  lemma {:induction false} PrintedHasNoNul(rs: seq<GoodRecord>)
    ensures NUL !in PrintFile(rs) && (PrintFile(rs) == [] <==> rs == [])
    decreases |rs|
  {
    if rs != [] {
      hide PrintRecord;
      RecordIsOneLine(rs[0]);
      PrintedHasNoNul(rs[1..]);
    }
  }

  lemma {:induction false} UnownedSurvives(m: Tables, rs: seq<GoodRecord>, cal: EqCal, c: Cell)
    requires forall i | 0 <= i < |rs| :: !Owns(rs[i].kind, rs[i].slot, c)
    ensures Get(ApplyAll(m, rs, cal), c) == Get(m, c)
    decreases |rs|
  {
    if rs != [] {
      RecordKeepsOtherSlots(m, rs[0], cal);
      UnownedSurvives(Apply(m, rs[0], cal), rs[1..], cal, c);
    }
  }

  /** After the file, every word is in its cell unless a later record owns it. */
  lemma {:induction false} FileIsStored(m: Tables, rs: seq<GoodRecord>, cal: EqCal, i: nat, k: nat, c: Cell)
    requires i < |rs|
    requires k < |rs[i].vals| && TargetOf(rs[i].kind, rs[i].slot, rs[i].vals, k) == Put(c)
    requires forall j | i < j < |rs| :: !Owns(rs[j].kind, rs[j].slot, c)
    ensures Get(ApplyAll(m, rs, cal), c) == Stored(c, rs[i].vals[k])
    decreases i
  {
    if i == 0 {
      RecordIsStored(m, rs[0], cal, k);
      UnownedSurvives(Apply(m, rs[0], cal), rs[1..], cal, c);
    } else {
      FileIsStored(Apply(m, rs[0], cal), rs[1..], cal, i - 1, k, c);
    }
  }

  /** The last record that owns a cell decides it. */
  lemma {:induction false} LastOwnerDecides(m: Tables, rs: seq<GoodRecord>, cal: EqCal, i: nat, c: Cell) returns (before: Tables)
    requires i < |rs|
    requires forall j | i < j < |rs| :: !Owns(rs[j].kind, rs[j].slot, c)
    ensures Get(ApplyAll(m, rs, cal), c) == Get(Apply(before, rs[i], cal), c)
    decreases i
  {
    if i == 0 {
      before := m;
      UnownedSurvives(Apply(m, rs[0], cal), rs[1..], cal, c);
    } else {
      before := LastOwnerDecides(Apply(m, rs[0], cal), rs[1..], cal, i - 1, c);
    }
  }

  /** After the file, every part of every band of an equalizer is what the vendor
      routine computed for the last record of that device, and zero behind them. */
  lemma FileEqualizer(m: Tables, rs: seq<GoodRecord>, cal: EqCal, i: nat, part: EqPart, p: int)
    requires i < |rs| && rs[i].kind.Eq?
    requires forall j | i < j < |rs| :: !(rs[j].kind.Eq? && rs[j].slot == rs[i].slot)
    requires PartOk(EQ_BANDS, part) && 88 <= p < 132
    ensures var t := ApplyAll(m, rs, cal);
            && Get(t, EqBands(rs[i].slot)) == EQ_BANDS
            && Get(t, EqParam(rs[i].slot, IndexOf(EQ_BANDS, part)))
               == (match part
                   case Num(b, j) => BandOut(rs[i].vals, b, cal).num[j]
                   case Den(b, j) => BandOut(rs[i].vals, b, cal).den[j]
                   case Shift(b) => BandOut(rs[i].vals, b, cal).shift)
            && Get(t, EqParam(rs[i].slot, p)) == 0
  {
    hide Apply, ApplyAll, BandOut, IndexOf;
    var slot := rs[i].slot;
    forall c: Cell | Owns(Eq, slot, c)
      ensures forall j | i < j < |rs| :: !Owns(rs[j].kind, rs[j].slot, c)
    {
    }
    var a := LastOwnerDecides(m, rs, cal, i, EqBands(slot));
    EqualizerIsStored(a, rs[i], cal, part, p);
    var b := LastOwnerDecides(m, rs, cal, i, EqParam(slot, IndexOf(EQ_BANDS, part)));
    EqualizerIsStored(b, rs[i], cal, part, p);
    var d := LastOwnerDecides(m, rs, cal, i, EqParam(slot, p));
    EqualizerIsStored(d, rs[i], cal, part, p);
  }

  /** The word of a transmit record that asks for its pre-processing. */
  function FlagWord(kind: Kind): nat {
    match kind case TxIir => 49 case Agc => 24 case _ => 8
  }

  predicate AsksFor(r: Record, rate: nat, kind: Kind) {
    r.kind == kind && r.slot == rate && Val(r.vals, FlagWord(kind)) != 0
  }

  lemma {:induction false} PutNKeepsBits(m: Tables, k: Kind, slot: nat, vals: seq<int>, n: nat, rate: nat, kind: Kind)
    requires n <= |vals|
    ensures Get(PutN(m, k, slot, vals, n), PreprocBit(rate, kind)) == Get(m, PreprocBit(rate, kind))
  {
    if n > 0 {
      PutNKeepsBits(m, k, slot, vals, n - 1, rate, kind);
    }
  }

  lemma RecordPreprocBit(m: Tables, r: Record, cal: EqCal, rate: nat, kind: Kind)
    requires Wellformed(r) && kind in {TxIir, Agc, Ns}
    ensures Get(Apply(m, r, cal), PreprocBit(rate, kind))
            == if AsksFor(r, rate, kind) then 1 else Get(m, PreprocBit(rate, kind))
  {
    PutNKeepsBits(m, r.kind, r.slot, r.vals, |r.vals|, rate, kind);
    hide PutN, TargetOf;
  }

  /** A pre-processing bit is set after the file if and only if it was before or
      some record of that kind and rate asks for it; no record clears it. */
  lemma {:induction false} FilePreprocBits(m: Tables, rs: seq<GoodRecord>, cal: EqCal, rate: nat, kind: Kind)
    requires kind in {TxIir, Agc, Ns}
    ensures Get(ApplyAll(m, rs, cal), PreprocBit(rate, kind))
            == if exists i :: 0 <= i < |rs| && AsksFor(rs[i], rate, kind) then 1 else Get(m, PreprocBit(rate, kind))
    decreases |rs|
  {
    if rs != [] {
      var t := Apply(m, rs[0], cal);
      RecordPreprocBit(m, rs[0], cal, rate, kind);
      FilePreprocBits(t, rs[1..], cal, rate, kind);
      hide Apply, AsksFor;
      if i :| 0 <= i < |rs| && AsksFor(rs[i], rate, kind) {
        assert i > 0 ==> AsksFor(rs[1..][i - 1], rate, kind);
      }
      if i :| 0 <= i < |rs[1..]| && AsksFor(rs[1..][i], rate, kind) {
        assert AsksFor(rs[i + 1], rate, kind);
      }
    }
  }

  /** Two records share a cell only when they are for the same slot of the same
      kind, or the cell is the one flag all transmit records of a kind share. */
  lemma SlotsAreSeparate(r: Record, s: Record, c: Cell)
    requires Owns(r.kind, r.slot, c) && Owns(s.kind, s.slot, c)
    ensures r.kind == s.kind && (r.slot == s.slot || c in {TxFlag(0), AgcFlag(0), NsFlag(0)})
  {
  }

  // ---------------------------------------------- commas and array bounds

  /** The first two characters decide whose line it is; behind a first comma
      they are never both a letter and a digit. */
  lemma OwnerBeforeComma(a: seq<char>, b: seq<char>, c: seq<char>)
    ensures Owner(a + "," + b) == Owner(a + "," + c)
    ensures CharAt(a + "," + b, 0) == CharAt(a + "," + c, 0)
  {
    var x, y := a + "," + b, a + "," + c;
    assert CharAt(x, 0) == CharAt(y, 0);
    assert |a| > 0 ==> CharAt(x, 1) == CharAt(y, 1);
  }

  /** Extra commas beside a comma, anywhere in a line, never change what it means. */
  lemma ExtraCommas(a: seq<char>, n: nat, b: seq<char>, haveEq: bool)
    ensures MeaningOf(a + "," + Commas(n) + b, haveEq) == MeaningOf(a + "," + b, haveEq)
  {
    CommasDoNotCount(a, n, b);
    OwnerBeforeComma(a, Commas(n) + b, b);
    assert a + "," + (Commas(n) + b) == a + "," + Commas(n) + b;
    hide Fields, Needed, SizesOk, Words, Owner;
  }

  /** Commas at the end of a line never change what it means. */
  lemma TrailingCommas(line: seq<char>, n: nat, haveEq: bool)
    ensures MeaningOf(line + Commas(n), haveEq) == MeaningOf(line, haveEq)
  {
    hide Fields, Needed, SizesOk, Words;
    CommasDoNotCount(line, n, []);
    var more := line + Commas(n);
    assert CharAt(more, 0) == CharAt(line, 0) || (line == [] && CharAt(more, 0) == ',');
    assert CharAt(more, 1) == CharAt(line, 1) || (|line| < 2 && CharAt(more, 1) == ',');
    assert Owner(more) == Owner(line);
  }

  /** Commas put into the two-character code of a line do change it: the line is
      ignored, or rejected when the letter of a transmit record still leads it. So
      a line with a code keeps its meaning if and only if it was rejected anyway
      and such a letter stays in front. */
  lemma CommasInTheCode(a: seq<char>, n: nat, b: seq<char>, haveEq: bool)
    requires |a| < 2 && n > 0
    ensures var letter := |a| == 1 && a[0] in {'E', 'F', 'G'};
            && MeaningOf(a + Commas(n) + b, haveEq) == (if letter then Reject else Ignore)
            && (Owner(a + b).Some? ==>
                  (MeaningOf(a + Commas(n) + b, haveEq) == MeaningOf(a + b, haveEq)
                   <==> letter && MeaningOf(a + b, haveEq) == Reject))
  {
    hide Fields, Needed, SizesOk, Words;
    var line := a + Commas(n) + b;
    assert CharAt(line, |a|) == ',';
    assert |a| == 1 ==> CharAt(line, 0) == a[0];
    assert Owner(line) == None;
  }

  /** The sizes the HAL later hands to the DSP with the multi-band tables. */
  ghost predicate SizesFit(m: Tables) {
    forall d :: 0 <= Get(m, MbBands(d)) <= 5 && 0 <= Get(m, MbExtSize(d)) <= 392
  }

  lemma RecordKeepsSizes(m: Tables, r: Record, cal: EqCal)
    requires SizesFit(m) && Wellformed(r)
    ensures SizesFit(Apply(m, r, cal))
  {
    RecordKeepsOtherSlots(m, r, cal);
    hide Apply;
    if r.kind.Mbadrc? {
      RecordIsStored(m, r, cal, 0);
      RecordIsStored(m, r, cal, 3);
    }
    forall d
      ensures 0 <= Get(Apply(m, r, cal), MbBands(d)) <= 5 && 0 <= Get(Apply(m, r, cal), MbExtSize(d)) <= 392
    {
      assert (r.kind.Mbadrc? && d == r.slot) || !Owns(r.kind, r.slot, MbBands(d));
      assert (r.kind.Mbadrc? && d == r.slot) || !Owns(r.kind, r.slot, MbExtSize(d));
    }
  }

  /** However the load ends, every multi-band table that a good line filled keeps
      sizes inside its arrays. */
  lemma {:induction false} LoadKeepsSizes(m: Tables, lines: seq<seq<char>>, haveEq: bool, cal: EqCal)
    requires SizesFit(m)
    ensures SizesFit(LoadLines(m, lines, haveEq, cal).tables)
    decreases |lines|
  {
    if lines != [] {
      match MeaningOf(lines[0], haveEq)
      case Ignore => LoadKeepsSizes(m, lines[1..], haveEq, cal);
      case Reject =>
      case Accept(r) =>
        AcceptedIsWellformed(lines[0], haveEq);
        RecordKeepsSizes(m, r, cal);
        LoadKeepsSizes(Apply(m, r, cal), lines[1..], haveEq, cal);
    }
  }

  // ------------------------------------------------------ from text to tables

  /** A printed file, mapped into memory and loaded by a fresh loader, gives exactly
      the tables of its records; the search for a further line leaves the mapping
      exactly when the file fills its last page. */
  method LoadPrinted(rs: seq<GoodRecord>, page: nat, haveEq: bool, cal: EqCal) returns (l: Loader, r: Outcome)
    requires rs != [] && page > 0
    requires forall i | 0 <= i < |rs| :: rs[i].kind.Eq? ==> haveEq
    ensures fresh(l) && l.tables == ApplyAll(map[], rs, cal)
    ensures r == if |PrintFile(rs)| % page == 0 then PastEnd else Complete
  {
    hide PrintFile, ApplyAll, LoadLines, Lines, Mapped;
    var text := PrintFile(rs);
    PrintedHasNoNul(rs);
    l := new Loader(text, page, haveEq, cal);
    MappedHasNul(text, page);
    ghost var after := l.buf[|text|..];
    MappedFollows(text, page);
    assert l.buf[..] == text + after;
    FileRoundTrip(map[], rs, haveEq, cal, after);
    r := l.Load();
  }
}
