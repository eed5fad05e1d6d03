/**
 The routing machine on the filter file it was given: which filters a run can
 enable, by what the file's lines say.
 */
module FilterConfig {
  import opened Wrappers
  import opened FilterTables
  import opened FilterLoader
  import opened FilterRoundTrip
  import L = FilterLayout
  import CStrings
  import R = Routing
  import P = RoutingProofs
  import F = RoutingFilters

  function KindOf(f: R.Filter): Kind {
    match f case Adrc => Kind.Adrc case Eq => Kind.Eq case RxIir => Iir case Mbadrc => Kind.Mbadrc
  }

  /** The flag the post-processing looks at for a device. */
  function FlagCell(f: R.Filter, dev: int): Cell {
    match f case Adrc => AdrcFlag(dev) case Eq => EqFlag(dev) case RxIir => IirFlag(dev) case Mbadrc => MbFlag(dev)
  }

  /** Where a record of that kind carries the flag. */
  function FlagIndex(r: Record): int {
    match r.kind
    case Iir => 48
    case Mbadrc => Needed(r.kind, r.vals) - 1
    case _ => 0
  }

  /** The machine's configuration once the file's lines were loaded; no lines at
      all when the file cannot be read. */
  function WithFile(fixed: R.Config, lines: Option<seq<seq<char>>>, haveEq: bool, cal: EqCal): R.Config {
    var loaded := LoadLines(map[], if lines.Some? then lines.value else [], haveEq, cal);
    fixed.(parsed := lines.Some? && loaded.bad == None,
           flags := (dev, f) => Get(loaded.tables, FlagCell(f, dev)) != 0)
  }

  // --------------------------------------------------------------- the file's lines

  /** The records of the good lines, in order. */
  function Records(lines: seq<seq<char>>, haveEq: bool): seq<GoodRecord>
    decreases |lines|
  {
    if lines == [] then []
    else
      match MeaningOf(lines[0], haveEq)
      case Accept(r) => AcceptedIsWellformed(lines[0], haveEq); [r] + Records(lines[1..], haveEq)
      case _ => Records(lines[1..], haveEq)
  }

  /** Loading fails exactly when some line is bad, and otherwise applies the records. */
  lemma {:induction false} LoadMeans(m: Tables, lines: seq<seq<char>>, haveEq: bool, cal: EqCal)
    ensures LoadLines(m, lines, haveEq, cal).bad.Some?
            <==> exists i :: 0 <= i < |lines| && MeaningOf(lines[i], haveEq) == Reject
    ensures var l := LoadLines(m, lines, haveEq, cal);
            l.bad == None ==> l.tables == ApplyAll(m, Records(lines, haveEq), cal)
    decreases |lines|
  {
    hide MeaningOf, Apply;
    if lines != [] {
      var rest := lines[1..];
      AcceptedIsWellformed(lines[0], haveEq);
      assert (exists i :: 0 <= i < |lines| && MeaningOf(lines[i], haveEq) == Reject)
             <==> MeaningOf(lines[0], haveEq) == Reject || exists i :: 0 <= i < |rest| && MeaningOf(rest[i], haveEq) == Reject by {
        assert forall i :: 0 < i < |lines| ==> lines[i] == rest[i - 1];
        assert forall i :: 0 <= i < |rest| ==> rest[i] == lines[i + 1];
      }
      match MeaningOf(lines[0], haveEq) {
        case Reject =>
        case Ignore => LoadMeans(m, rest, haveEq, cal);
        case Accept(r) =>
          LoadMeans(Apply(m, r, cal), rest, haveEq, cal);
          assert ([r] + Records(rest, haveEq))[1..] == Records(rest, haveEq);
      }
    }
  }

  /** The printed form of a list of records has exactly those records. */
  lemma {:induction false} RecordsOfPrinted(rs: seq<GoodRecord>, haveEq: bool, after: seq<char>)
    requires forall i | 0 <= i < |rs| :: rs[i].kind.Eq? ==> haveEq
    requires after != [] ==> after[0] == CStrings.NUL
    ensures Records(CStrings.Lines(PrintFile(rs) + after), haveEq) == rs
    decreases |rs|
  {
    hide MeaningOf, CStrings.Lines, PrintRecord;
    if rs == [] {
      CStrings.LinesEnd(PrintFile(rs) + after, 0);
    } else {
      var line := PrintRecord(rs[0]);
      var rest := PrintFile(rs[1..]) + after;
      RecordIsOneLine(rs[0]);
      assert PrintFile(rs) + after == line + "\n" + rest;
      CStrings.LinesCons(line, rest);
      RecordRoundTrip(rs[0], haveEq);
      RecordsOfPrinted(rs[1..], haveEq, after);
      assert ([line] + CStrings.Lines(rest))[1..] == CStrings.Lines(rest);
    }
  }

  // ------------------------------------------------------------------ the flags

  predicate IsFor(r: Record, f: R.Filter, dev: int) {
    r.kind == KindOf(f) && r.slot == dev
  }

  /** The last record for a filter and device, or -1. */
  function LastFor(rs: seq<GoodRecord>, f: R.Filter, dev: int): (i: int)
    ensures -1 <= i < |rs| && (i >= 0 ==> IsFor(rs[i], f, dev))
    ensures forall j :: i < j < |rs| ==> !IsFor(rs[j], f, dev)
    decreases |rs|
  {
    if rs == [] then -1
    else if IsFor(rs[|rs| - 1], f, dev) then |rs| - 1 else LastFor(rs[..|rs| - 1], f, dev)
  }

  lemma FlagTarget(r: GoodRecord, f: R.Filter)
    requires r.kind == KindOf(f)
    ensures 0 <= FlagIndex(r) < |r.vals|
    ensures TargetOf(r.kind, r.slot, r.vals, FlagIndex(r)) == Put(FlagCell(f, r.slot))
  {
  }

  lemma FlagOwner(r: Record, f: R.Filter, dev: int)
    ensures Owns(r.kind, r.slot, FlagCell(f, dev)) <==> IsFor(r, f, dev)
  {
  }

  /** After the file a flag is the flag word of the last record for its filter and
      device, and 0 without one. */
  lemma FlagOfRecords(rs: seq<GoodRecord>, cal: EqCal, f: R.Filter, dev: int)
    ensures Get(ApplyAll(map[], rs, cal), FlagCell(f, dev))
            == (var i := LastFor(rs, f, dev);
                if i >= 0 then Val(rs[i].vals, FlagIndex(rs[i])) else 0)
  {
    var i := LastFor(rs, f, dev);
    forall j | 0 <= j < |rs| ensures Owns(rs[j].kind, rs[j].slot, FlagCell(f, dev)) <==> IsFor(rs[j], f, dev) {
      FlagOwner(rs[j], f, dev);
    }
    hide Owns, LastFor, ApplyAll;
    if i >= 0 {
      FlagTarget(rs[i], f);
      hide FlagIndex, TargetOf;
      FileIsStored(map[], rs, cal, i, FlagIndex(rs[i]), FlagCell(f, dev));
    } else {
      UnownedSurvives(map[], rs, cal, FlagCell(f, dev));
    }
  }

  // ---------------------------------------------------------------- main results

  /** On every run, whatever the drivers answer: a file that cannot be read, or has
      one bad line anywhere, leaves every filter off. */
  lemma BadFileEnablesNothing(fixed: R.Config, lines: Option<seq<seq<char>>>, haveEq: bool, cal: EqCal,
                              o: R.Oracle, ops: seq<R.Op>)
    requires lines == None || exists i :: 0 <= i < |lines.value| && MeaningOf(lines.value[i], haveEq) == Reject
    ensures R.Run(R.INITIAL, o, WithFile(fixed, lines, haveEq, cal), ops).dsp.mask == 0
  {
    var cfg := WithFile(fixed, lines, haveEq, cal);
    if lines.Some? {
      LoadMeans(map[], lines.value, haveEq, cal);
    }
    P.InitiallyFine(P.Unconditional, o, cfg);
    P.RunKeeps(P.Unconditional, R.INITIAL, o, cfg, ops);
    hide R.Run, LoadLines, MeaningOf, P.DspAllowed, P.DspExclusive;
  }

  /** On every run, whatever the drivers answer: a filter that is on has a record in
      the file for the device it was enabled for, and the last such record has a
      flag word other than zero. */
  lemma EnabledFilterIsFlagged(fixed: R.Config, lines: seq<seq<char>>, haveEq: bool, cal: EqCal,
                               o: R.Oracle, ops: seq<R.Op>, f: R.Filter)
    ensures var s := R.Run(R.INITIAL, o, WithFile(fixed, Some(lines), haveEq, cal), ops);
            var rs := Records(lines, haveEq);
            R.Has(s.dsp.mask, f) ==>
              var i := LastFor(rs, f, s.dsp.forDevice);
              i >= 0 && Val(rs[i].vals, FlagIndex(rs[i])) != 0
  {
    var cfg := WithFile(fixed, Some(lines), haveEq, cal);
    P.InitiallyFine(P.Unconditional, o, cfg);
    P.RunKeeps(P.Unconditional, R.INITIAL, o, cfg, ops);
    LoadMeans(map[], lines, haveEq, cal);
    var s := R.Run(R.INITIAL, o, cfg, ops);
    FlagOfRecords(Records(lines, haveEq), cal, f, s.dsp.forDevice);
    P.NoFilters();
    hide R.Run, LoadLines, MeaningOf, R.Has, LastFor, ApplyAll, Records, FlagIndex, P.DspExclusive;
    assert R.Has(s.dsp.mask, f) ==> cfg.parsed && R.Wanted(cfg, s.dsp.forMask, s.dsp.forDevice, f);
  }

  /** The same for a printed file, in terms of the records printed. */
  lemma EnabledFilterWasPrinted(fixed: R.Config, rs: seq<GoodRecord>, haveEq: bool, cal: EqCal, after: seq<char>,
                                o: R.Oracle, ops: seq<R.Op>, f: R.Filter)
    requires forall i | 0 <= i < |rs| :: rs[i].kind.Eq? ==> haveEq
    requires after != [] ==> after[0] == CStrings.NUL
    ensures var lines := CStrings.Lines(PrintFile(rs) + after);
            var s := R.Run(R.INITIAL, o, WithFile(fixed, Some(lines), haveEq, cal), ops);
            R.Has(s.dsp.mask, f) ==>
              var i := LastFor(rs, f, s.dsp.forDevice);
              i >= 0 && Val(rs[i].vals, FlagIndex(rs[i])) != 0
  {
    var lines := CStrings.Lines(PrintFile(rs) + after);
    RecordsOfPrinted(rs, haveEq, after);
    EnabledFilterIsFlagged(fixed, lines, haveEq, cal, o, ops, f);
    hide *;
  }

  // ------------------------------------------------- from the text to the DSP

  /** The last complete line with its letter and digit, in a file without a bad line. */
  ghost predicate Decides(lines: seq<seq<char>>, haveEq: bool, cal: EqCal, k: nat) {
    && k < |lines| && L.Complete(lines[k], haveEq) && L.LastWithCode(lines, haveEq, k)
    && LoadLines(map[], lines, haveEq, cal).bad == None
  }

  /** The word of a line that is its filter's flag: behind 48 coefficients, at the end of
      a multi-band line, and else the first. */
  function FlagOfLine(line: seq<char>): int
    requires L.Complete(line, true)
  {
    var v := L.WordsOf(line);
    if line[0] == 'A' then v[48] else if line[0] == 'D' then v[7 + 10 * v[0] + v[3] / 2] else v[0]
  }

  /** The filter of a line's letter. */
  function FilterOfLine(letter: char): R.Filter {
    if letter == 'A' then R.RxIir else if letter == 'B' then R.Filter.Adrc else if letter == 'C' then R.Filter.Eq else R.Mbadrc
  }

  /** The word of a record that is its filter's flag. */
  function FlagWordOf(r: GoodRecord): int {
    match r.kind
    case Iir => r.vals[48]
    case Mbadrc => r.vals[|r.vals| - 1]
    case _ => r.vals[0]
  }

  lemma LetterIsRead(line: seq<char>, haveEq: bool)
    requires L.Complete(line, haveEq)
    ensures L.Complete(line, true) && |line| >= 2
  {
    hide L.WordsOf;
  }

  /** A record made of a line's first words has that line's flag. */
  lemma PrefixFlag(r: GoodRecord, line: seq<char>)
    requires L.Complete(line, true) && line[0] in {'A', 'B', 'C', 'D'}
    requires L.KindOfLetter(line[0]) == Some(r.kind) && r.vals <= L.WordsOf(line)
    ensures FlagWordOf(r) == FlagOfLine(line)
  {
    hide L.WordsOf;
    var v := L.WordsOf(line);
    assert forall i :: 0 <= i < |r.vals| ==> r.vals[i] == v[i];
    if r.kind.Mbadrc? {
      assert r.vals[0] == v[0] && r.vals[3] == v[3];
    }
  }

  lemma FlagWordIsRead(line: seq<char>, haveEq: bool)
    requires L.Complete(line, haveEq) && line[0] in {'A', 'B', 'C', 'D'}
    ensures L.Complete(line, true) && MeaningOf(line, haveEq).Accept? && Wellformed(MeaningOf(line, haveEq).rec)
    ensures var r := MeaningOf(line, haveEq).rec;
            && FlagWordOf(r) == FlagOfLine(line) && L.KindOfLetter(line[0]) == Some(r.kind)
            && r.slot == line[1] as int - '1' as int
  {
    LetterIsRead(line, haveEq);
    L.LineIsRead(line, haveEq);
    AcceptedIsWellformed(line, haveEq);
    hide MeaningOf, L.WordsOf, L.Complete, FlagWordOf, FlagOfLine, Needed, SizesOk, AreWords;
    PrefixFlag(MeaningOf(line, haveEq).rec, line);
  }

  /** Which table entry each filter's flag is. */
  lemma FlagsOfTables(fixed: R.Config, lines: seq<seq<char>>, haveEq: bool, cal: EqCal, d: nat)
    ensures var cfg, t := WithFile(fixed, Some(lines), haveEq, cal), LoadLines(map[], lines, haveEq, cal).tables;
            && cfg.flags(d, R.RxIir) == (Get(t, IirFlag(d)) != 0) && cfg.flags(d, R.Filter.Adrc) == (Get(t, AdrcFlag(d)) != 0)
            && cfg.flags(d, R.Filter.Eq) == (Get(t, EqFlag(d)) != 0) && cfg.flags(d, R.Mbadrc) == (Get(t, MbFlag(d)) != 0)
            && cfg.ep == fixed.ep && cfg.parsed == (LoadLines(map[], lines, haveEq, cal).bad == None)
  {
    hide LoadLines, Get;
  }

  lemma LaidFlag(t: Tables, r: GoodRecord, cal: EqCal)
    requires L.LaidOut(t, r, cal)
    ensures r.kind.Iir? ==> Get(t, IirFlag(r.slot)) == FlagWordOf(r)
    ensures r.kind.Adrc? ==> Get(t, AdrcFlag(r.slot)) == FlagWordOf(r)
    ensures r.kind.Eq? ==> Get(t, EqFlag(r.slot)) == FlagWordOf(r)
    ensures r.kind.Mbadrc? ==> Get(t, MbFlag(r.slot)) == FlagWordOf(r)
  {
    L.FlagsAreLaid(t, r, cal);
    hide L.LaidOut, Get;
  }

  lemma DecidingLine(lines: seq<seq<char>>, haveEq: bool, cal: EqCal, k: nat)
    requires Decides(lines, haveEq, cal, k)
    ensures k < |lines| && L.Complete(lines[k], haveEq) && |lines[k]| >= 2 && L.LastWithCode(lines, haveEq, k)
    ensures LoadLines(map[], lines, haveEq, cal).bad == None
  {
  }

  lemma ReadFlag(fixed: R.Config, lines: seq<seq<char>>, haveEq: bool, cal: EqCal, letter: char, r: GoodRecord)
    requires L.LaidOut(LoadLines(map[], lines, haveEq, cal).tables, r, cal)
    requires letter in {'A', 'B', 'C', 'D'} && L.KindOfLetter(letter) == Some(r.kind)
    ensures WithFile(fixed, Some(lines), haveEq, cal).flags(r.slot, FilterOfLine(letter)) <==> FlagWordOf(r) != 0
  {
    hide LoadLines, WithFile, L.LaidOut, FlagWordOf, Get;
    LaidFlag(LoadLines(map[], lines, haveEq, cal).tables, r, cal);
    FlagsOfTables(fixed, lines, haveEq, cal, r.slot);
  }

  /** The flags are what the deciding lines say. */
  lemma FlagsAreRead(fixed: R.Config, lines: seq<seq<char>>, haveEq: bool, cal: EqCal, k: nat)
    requires Decides(lines, haveEq, cal, k) && lines[k][0] in {'A', 'B', 'C', 'D'}
    ensures L.Complete(lines[k], true)
    ensures var cfg, d := WithFile(fixed, Some(lines), haveEq, cal), lines[k][1] as int - '1' as int;
            d >= 0 && (cfg.flags(d, FilterOfLine(lines[k][0])) <==> FlagOfLine(lines[k]) != 0)
  {
    hide *;
    DecidingLine(lines, haveEq, cal, k);
    L.LinesAreLaidOut(map[], lines, haveEq, cal, k);
    FlagWordIsRead(lines[k], haveEq);
    ReadFlag(fixed, lines, haveEq, cal, lines[k][0], MeaningOf(lines[k], haveEq).rec);
  }

  /** The endpoint whose tables a digit names. */
  function EndpointOfDigit(ep: R.Endpoints, digit: char): int {
    if digit == '1' then ep.speaker else if digit == '2' then ep.handset else ep.headset
  }

  lemma InitiallyPlays(o: R.Oracle, cfg: R.Config)
    ensures P.PlaysFilters(R.INITIAL, cfg)
  {
  }

  lemma DigitNamesTables(cfg: R.Config, line: seq<char>, haveEq: bool)
    requires L.Complete(line, haveEq) && line[0] in {'A', 'B', 'C', 'D'}
    requires cfg.ep.speaker != cfg.ep.handset && cfg.ep.headset !in {cfg.ep.speaker, cfg.ep.handset}
    ensures |line| >= 2
    ensures var dev := EndpointOfDigit(cfg.ep, line[1]);
            dev >= 0 ==> R.TableOf(cfg, dev) == line[1] as int - '1' as int
  {
    hide L.WordsOf;
  }

  lemma FiltersAre(s: R.Hal, cfg: R.Config, d: nat, letter: char)
    requires P.PlaysFilters(s, cfg) && s.playback && cfg.parsed && R.TableOf(cfg, s.act) == d
    requires letter in {'A', 'B', 'C', 'D'}
    ensures var f := FilterOfLine(letter);
            R.Has(s.dsp.mask, f)
            <==> R.Has(s.mask, f) && cfg.flags(d, f) && (letter == 'B' ==> !R.Has(s.dsp.mask, R.Mbadrc))
  {
    hide R.Has, R.TableOf;
  }

  /** On every run that never starts playback blind, while the speaker, handset or
      headset plays: a filter is on exactly when the route asks for it and the last line
      of the file for it and that endpoint flags it; the plain compressor only where the
      multi-band one is not on. */
  lemma PlayingFollowsTheFile(fixed: R.Config, lines: seq<seq<char>>, haveEq: bool, cal: EqCal,
                              o: R.Oracle, ops: seq<R.Op>, k: nat)
    requires P.AllSucceed(o, R.Pcm)
    requires Decides(lines, haveEq, cal, k) && lines[k][0] in {'A', 'B', 'C', 'D'}
    requires fixed.ep.speaker != fixed.ep.handset && fixed.ep.headset !in {fixed.ep.speaker, fixed.ep.handset}
    requires var cfg := WithFile(fixed, Some(lines), haveEq, cal);
             var s := R.Run(R.INITIAL, o, cfg, ops);
             && F.NeverBlind(R.INITIAL, o, cfg, ops)
             && s.playback && s.act == EndpointOfDigit(fixed.ep, lines[k][1]) >= 0
    ensures L.Complete(lines[k], true)
    ensures var s := R.Run(R.INITIAL, o, WithFile(fixed, Some(lines), haveEq, cal), ops);
            var f := FilterOfLine(lines[k][0]);
            R.Has(s.dsp.mask, f)
            <==> R.Has(s.mask, f) && FlagOfLine(lines[k]) != 0 && (lines[k][0] == 'B' ==> !R.Has(s.dsp.mask, R.Mbadrc))
  {
    hide *;
    var cfg := WithFile(fixed, Some(lines), haveEq, cal);
    var s := R.Run(R.INITIAL, o, cfg, ops);
    DecidingLine(lines, haveEq, cal, k);
    FlagsAreRead(fixed, lines, haveEq, cal, k);
    InitiallyPlays(o, cfg);
    F.RunPlays(R.INITIAL, o, cfg, ops);
    FlagsOfTables(fixed, lines, haveEq, cal, 0);
    DigitNamesTables(cfg, lines[k], haveEq);
    FiltersAre(s, cfg, lines[k][1] as int - '1' as int, lines[k][0]);
  }
}
