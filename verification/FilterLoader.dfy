/**
 The loader of the acoustic filter file: an in-place tokenizer with one saved
 pointer, a parser for each kind of record, and the loop over the lines.
 */
module FilterLoader {
  import opened CStrings
  import opened FilterTables
  import opened Wrappers

  // ---------------------------------------------------------- specification

  /** What one line of the file asks for. */
  datatype Meaning = Ignore | Reject | Accept(rec: Record)

  function CharAt(line: seq<char>, i: nat): char {
    if i < |line| then line[i] else NUL
  }

  /** The tables a line is for, by its first two characters. */
  function Owner(line: seq<char>): Option<(Kind, nat)> {
    var c, d := CharAt(line, 0), CharAt(line, 1);
    if c == 'A' && '1' <= d <= '3' then Some((Iir, d as int - '1' as int))
    else if c == 'B' && '1' <= d <= '3' then Some((Adrc, d as int - '1' as int))
    else if c == 'C' && '1' <= d <= '3' then Some((Eq, d as int - '1' as int))
    else if c == 'D' && '1' <= d <= '3' then Some((Mbadrc, d as int - '1' as int))
    else if c == 'E' && '1' <= d <= '9' then Some((TxIir, d as int - '1' as int))
    else if c == 'F' && '1' <= d <= '9' then Some((Agc, d as int - '1' as int))
    else if c == 'G' && '1' <= d <= '9' then Some((Ns, d as int - '1' as int))
    else None
  }

  /** Fields in front of the words: the header, and a description except in the
      gain control and noise suppression records. */
  function Leading(kind: Kind): nat {
    if kind.Agc? || kind.Ns? then 1 else 2
  }

  function Payload(kind: Kind, line: seq<char>): seq<int> {
    var fields := Fields(line);
    if |fields| < Leading(kind) then [] else Words(fields[Leading(kind)..])
  }

  function MeaningOf(line: seq<char>, haveEq: bool): Meaning {
    match Owner(line)
    case None => if CharAt(line, 0) in {'E', 'F', 'G'} then Reject else Ignore
    case Some((kind, slot)) =>
      var vals := Payload(kind, line);
      if Needed(kind, vals) <= |vals| && SizesOk(kind, vals) && (kind.Eq? ==> haveEq)
      then Accept(Record(kind, slot, vals[..Needed(kind, vals)])) else Reject
  }

  lemma CutIsWellformed(kind: Kind, slot: nat, vals: seq<int>)
    requires AreWords(vals) && 0 <= Needed(kind, vals) <= |vals| && SizesOk(kind, vals) && SlotOk(kind, slot)
    ensures Wellformed(Record(kind, slot, vals[..Needed(kind, vals)]))
  {
    var n := Needed(kind, vals);
    assert kind.Mbadrc? ==> n >= 8 && vals[0] == vals[..n][0] && vals[3] == vals[..n][3];
    assert Needed(kind, vals[..n]) == n;
  }

  lemma AcceptedIsWellformed(line: seq<char>, haveEq: bool)
    ensures MeaningOf(line, haveEq).Accept? ==> Wellformed(MeaningOf(line, haveEq).rec)
  {
    if MeaningOf(line, haveEq).Accept? {
      var (kind, slot) := Owner(line).value;
      var vals := Payload(kind, line);
      CutIsWellformed(kind, slot, vals);
      hide Payload, Wellformed, Needed, SizesOk;
    }
  }

  /** Loading is a left fold over the lines that stops at the first bad one. */
  datatype Loaded = Loaded(tables: Tables, bad: Option<seq<char>>)

  function LoadLines(m: Tables, lines: seq<seq<char>>, haveEq: bool, cal: EqCal): Loaded
    decreases |lines|
  {
    if lines == [] then Loaded(m, None)
    else
      match MeaningOf(lines[0], haveEq)
      case Ignore => LoadLines(m, lines[1..], haveEq, cal)
      case Reject => Loaded(m, Some(lines[0]))
      case Accept(r) =>
        AcceptedIsWellformed(lines[0], haveEq);
        LoadLines(Apply(m, r, cal), lines[1..], haveEq, cal)
  }

  lemma LoadNone(haveEq: bool, cal: EqCal)
    ensures forall m {:trigger LoadLines(m, [], haveEq, cal)} :: LoadLines(m, [], haveEq, cal) == Loaded(m, None)
  {
  }

  lemma LoadCons(m: Tables, line: seq<char>, rest: seq<seq<char>>, haveEq: bool, cal: EqCal)
    ensures LoadLines(m, [line] + rest, haveEq, cal)
            == match MeaningOf(line, haveEq)
               case Ignore => LoadLines(m, rest, haveEq, cal)
               case Reject => Loaded(m, Some(line))
               case Accept(r) => (AcceptedIsWellformed(line, haveEq); LoadLines(Apply(m, r, cal), rest, haveEq, cal))
  {
    assert ([line] + rest)[1..] == rest;
  }

  ghost predicate OutsideLine(m: Tables, m0: Tables, line: seq<char>) {
    match Owner(line)
    case None => m == m0
    case Some((kind, slot)) => Outside(m, m0, kind, slot)
  }

  /** The leading run without a comma is the first field. */
  lemma FirstField(line: seq<char>, k: nat)
    requires 0 < k <= |line| && ',' !in line[..k] && (k < |line| ==> line[k] == ',')
    ensures Fields(line) == [line[..k]] + Fields(line[k..])
    ensures k < |line| ==> Fields(line[k..]) == Fields(line[k + 1..])
  {
    FieldEndIs(line, k);
    assert line[0] in line[..k];
    if k < |line| { assert line[k..][1..] == line[k + 1..]; }
  }

  // --------------------------------------------------------- the loader

  /** One line while it is being parsed: the tables before it, its owner and all
      its words. */
  datatype Line = Line(before: Tables, kind: Kind, slot: nat, vals: seq<int>)

  /** How many pages n bytes take. */
  function Pages(n: nat, page: nat): (k: nat)
    requires page > 0
    ensures n <= page * k < n + page && (page * k == n <==> n % page == 0)
  {
    assert n == page * (n / page) + n % page;
    if n % page == 0 then n / page
    else
      assert page * (n / page + 1) == page * (n / page) + page;
      n / page + 1
  }

  /** What the file looks like in memory: its last page is filled up with zero bytes. */
  function Mapped(text: seq<char>, page: nat): (m: seq<char>)
    requires page > 0
    ensures |m| == page * Pages(|text|, page) && text <= m
  {
    text + seq(page * Pages(|text|, page) - |text|, i => NUL)
  }

  /** The mapped file has a NUL exactly when the text has one or does not fill its
      last page. */
  lemma MappedHasNul(text: seq<char>, page: nat)
    requires page > 0
    ensures NUL in Mapped(text, page) <==> NUL in text || |text| % page != 0
  {
    var fill := Mapped(text, page)[|text|..];
    assert Mapped(text, page) == text + fill;
    assert forall i :: 0 <= i < |fill| ==> fill[i] == NUL;
    if |text| % page != 0 { assert fill[0] in fill; }
  }

  lemma MappedFollows(text: seq<char>, page: nat)
    requires page > 0
    ensures var after := Mapped(text, page)[|text|..];
            Mapped(text, page) == text + after && (after != [] ==> after[0] == NUL)
  {
  }

  /** How loading ends. PastEnd is a search for the next newline that has left the
      mapped file. */
  datatype Outcome = Complete | Rejected | PastEnd

  class Loader {
    const buf: array<char>   // private mapping of the file
    const haveEq: bool       // the equalizer library and its symbol can be found
    const cal: EqCal
    var save: nat            // the saved pointer of the tokenizer
    var tables: Tables
    ghost var end: nat       // where the current line ends
    ghost var tail: seq<char>  // the file from there on

    /** The file mapped into memory; an empty one cannot be. */
    constructor (text: seq<char>, page: nat, haveEq: bool, cal: EqCal)
      requires text != [] && page > 0
      ensures fresh(buf) && buf[..] == Mapped(text, page)
      ensures this.haveEq == haveEq && this.cal == cal && tables == map[]
    {
      var m := Mapped(text, page);
      var b := new char[|m|];
      buf := b;
      this.haveEq := haveEq;
      this.cal := cal;
      save, end, tail := 0, 0, [];
      tables := map[];
      new;
      hide Mapped;
      forall i | 0 <= i < |m| { buf[i] := m[i]; }
      assert buf[..] == m;
    }

    ghost predicate StringAt(p: nat)
      reads this`end, this`tail, buf
    {
      p <= end < buf.Length && buf[end..] == tail && buf[end] == NUL && NUL !in buf[p..end]
    }

    /** The fields the tokenizer has not returned yet. */
    ghost function Rest(): seq<seq<char>>
      reads this`save, this`end, this`tail, buf
      requires StringAt(save)
    {
      Fields(buf[save..end])
    }

    /** Past the separators in front of a field. */
    method SkipCommas(start: nat) returns (s: nat)
      requires StringAt(start)
      ensures start <= s <= end && buf[s] != ',' && StringAt(s) && (buf[s] == NUL <==> s == end)
      ensures Fields(buf[s..end]) == Fields(buf[start..end])
    {
      s := start;
      while buf[s] == ','
        invariant start <= s <= end && StringAt(s)
        invariant Fields(buf[s..end]) == Fields(buf[start..end])
        decreases end - s
      {
        assert buf[s..end][1..] == buf[s + 1..end];
        s := s + 1;
      }
      assert s < end ==> buf[s] in buf[s..end];
    }

    /** The end of the field that starts at tok. */
    method ScanField(tok: nat) returns (s: nat)
      requires StringAt(tok) && tok < end && buf[tok] != ','
      ensures tok < s <= end && (s == end || buf[s] == ',')
      ensures NUL !in buf[tok..s]
      ensures Fields(buf[tok..end]) == [buf[tok..s]] + Fields(buf[s..end])
      ensures s < end ==> Fields(buf[s..end]) == Fields(buf[s + 1..end]) && StringAt(s + 1)
    {
      hide Fields, StrAt;
      assert buf[tok] in buf[tok..end];
      s := tok;
      while buf[s] != NUL && buf[s] != ','
        invariant tok <= s <= end
        invariant ',' !in buf[tok..s]
        decreases end - s
      {
        s := s + 1;
      }
      if s < end { assert buf[s] in buf[tok..end]; }
      ghost var line := buf[tok..end];
      assert line[..s - tok] == buf[tok..s] && line[s - tok..] == buf[s..end];
      FirstField(line, s - tok);
      if s < end { assert line[s - tok + 1..] == buf[s + 1..end]; }
    }

    /** strtok with the separator ",": the next non-empty field, cut off in place,
        or -1. */
    method Strtok(start: nat) returns (tok: int)
      requires StringAt(start)
      modifies this`save, buf
      ensures StringAt(save)
      ensures var fields := old(Fields(buf[start..end]));
              if fields == [] then tok == -1 && Rest() == []
              else tok >= 0 && StrAt(buf[..], tok) == fields[0] && Rest() == fields[1..]
    {
      var s := SkipCommas(start);
      if buf[s] == NUL {
        save := s;
        return -1;
      }
      tok := s;
      s := ScanField(tok);
      ghost var field := buf[tok..s];
      if buf[s] == ',' {
        ghost var after := buf[s + 1..end];
        buf[s] := NUL;
        save := s + 1;
        assert buf[save..end] == after && buf[end..] == tail;
      } else {
        save := s;
      }
      assert buf[tok..s] == field;
      StrAtIs(buf[..], tok, s);
    }

    /** The words from the saved pointer on are those of the line from k on. */
    ghost predicate Reading(ln: Line, k: nat)
      reads this`save, this`end, this`tail, buf
    {
      k <= |ln.vals| && StringAt(save) && Words(Rest()) == ln.vals[k..]
    }

    /** The first k words of the line are consumed and stored where they belong. */
    ghost predicate Filled(ln: Line, k: nat)
      reads this, buf
    {
      && Reading(ln, k)
      && tables == PutN(ln.before, ln.kind, ln.slot, ln.vals, k)
      && Outside(tables, ln.before, ln.kind, ln.slot)
    }

    lemma FilledMeans(ln: Line, k: nat)
      requires Filled(ln, k)
      ensures k <= |ln.vals| && tables == PutN(ln.before, ln.kind, ln.slot, ln.vals, k) && Reading(ln, k)
      ensures Outside(tables, ln.before, ln.kind, ln.slot)
    {
    }

    lemma WordIsStored(ln: Line, k: nat, n: nat)
      requires Filled(ln, n) && k < n <= Needed(ln.kind, ln.vals) && !ln.kind.Mbadrc?
      requires TargetOf(ln.kind, ln.slot, ln.vals, k).Put?
      ensures n <= |ln.vals|
      ensures var c := TargetOf(ln.kind, ln.slot, ln.vals, k).cell;
              Get(tables, c) == Stored(c, ln.vals[k])
    {
      PutNStores(ln.before, ln.kind, ln.slot, ln.vals, k, n);
    }

    /** Next field as a number. */
    method NextWord(ghost ln: Line, ghost k: nat) returns (ok: bool, v: int)
      requires Reading(ln, k)
      modifies this`save, buf
      ensures StringAt(save)
      ensures ok <==> k < |ln.vals|
      ensures if ok then Reading(ln, k + 1) && 0 <= v == ln.vals[k] < 0x1_0000 else Reading(ln, k)
    {
      ghost var rest := Rest();
      assert |Words(rest)| == |ln.vals| - k;
      var p := Strtok(save);
      ok, v := p != -1, 0;
      if ok {
        v := Word(StrAt(buf[..], p));
        assert Words(rest)[1..] == Words(rest[1..]);
        assert ln.vals[k..][1..] == ln.vals[k + 1..];
      }
    }

    /** Next field stored in a cell. */
    method Next(c: Cell, ghost ln: Line, ghost k: nat) returns (ok: bool)
      requires Filled(ln, k) && TargetOf(ln.kind, ln.slot, ln.vals, k) == Put(c) && InRange(c)
      modifies this`save, this`tables, buf
      ensures StringAt(save)
      ensures ok <==> k < |ln.vals|
      ensures if ok then Filled(ln, k + 1) else Filled(ln, k)
      ensures ok ==> Get(tables, c) == Stored(c, ln.vals[k]) && 0 <= ln.vals[k] < 0x1_0000
    {
      var v;
      ok, v := NextWord(ln, k);
      if ok {
        TargetIsOwned(ln.kind, ln.slot, ln.vals, k);
        tables := tables[c := Stored(c, v)];
      }
    }

    /** Next field read and dropped. */
    method NextUnused(ghost ln: Line, ghost k: nat) returns (ok: bool)
      requires Filled(ln, k) && TargetOf(ln.kind, ln.slot, ln.vals, k) == Skip
      modifies this`save, buf
      ensures StringAt(save)
      ensures ok <==> k < |ln.vals|
      ensures if ok then Filled(ln, k + 1) else Filled(ln, k)
    {
      var v;
      ok, v := NextWord(ln, k);
    }

    /** The next fields stored in a list of cells, in that order. */
    method NextAll(cells: seq<Cell>, ghost ln: Line, ghost k: nat) returns (ok: bool)
      requires StringAt(save)
      requires Filled(ln, k) && cells != []
      requires forall i | 0 <= i < |cells| ::
                 TargetOf(ln.kind, ln.slot, ln.vals, k + i) == Put(cells[i]) && InRange(cells[i])
      modifies this`save, this`tables, buf
      ensures StringAt(save)
      ensures ok <==> k + |cells| <= |ln.vals|
      ensures if ok then Filled(ln, k + |cells|) else exists n: nat :: Filled(ln, n)
      ensures ok ==>
                var last := |cells| - 1;
                && 0 <= ln.vals[k + last] < 0x1_0000
                && Get(tables, cells[last]) == Stored(cells[last], ln.vals[k + last])
    {
      hide Filled, Reading, PutN;
      ok := true;
      for i := 0 to |cells|
        invariant ok && StringAt(save) && Filled(ln, k + i)
        invariant i > 0 ==>
                    && k + i <= |ln.vals|
                    && 0 <= ln.vals[k + i - 1] < 0x1_0000
                    && Get(tables, cells[i - 1]) == Stored(cells[i - 1], ln.vals[k + i - 1])
      {
        ok := Next(cells[i], ln, k + i);
        if !ok { return; }
      }
    }

    /** Table header, and the description where the record has one. */
    method Header(start: nat, description: bool, ghost line: seq<char>, ghost kind: Kind, ghost slot: nat)
      returns (ok: bool)
      requires StringAt(start) && line == buf[start..end]
      requires description <==> Leading(kind) == 2
      modifies this`save, buf
      ensures StringAt(save)
      ensures ok <==> |Fields(line)| >= Leading(kind)
      ensures !ok ==> Payload(kind, line) == []
      ensures ok ==> Reading(Line(tables, kind, slot, Payload(kind, line)), 0)
    {
      var p := Strtok(start);
      if p == -1 { return false; }
      if description {
        p := Strtok(save);
        assert |Fields(line)| >= 2 ==> Fields(line)[1..][1..] == Fields(line)[2..];
        if p == -1 { return false; }
      }
      return true;
    }

    /** IIR record. */
    method ParseIir(ghost ln: Line, slot: nat) returns (ok: bool)
      requires StringAt(save)
      requires Filled(ln, 0) && ln.kind.Iir? && ln.slot == slot < 3
      modifies this`save, this`tables, buf
      ensures StringAt(save)
      ensures ok <==> |ln.vals| >= Needed(ln.kind, ln.vals)
      ensures if ok then tables == Effect(ln.before, ln.kind, slot, ln.vals, cal)
              else exists n: nat :: Filled(ln, n)
    {
      hide Filled, Reading, PutN;
      var i := 0;
      while i < 48
        invariant 0 <= i <= 48 && StringAt(save) && Filled(ln, i)
      {
        ok := Next(IirParam(slot, i), ln, i);
        if !ok { return; }
        i := i + 1;
      }
      ok := Next(IirFlag(slot), ln, 48); if !ok { return; }
      ok := Next(IirBands(slot), ln, 49); if !ok { return; }
      FilledMeans(ln, 50);
    }

    /** ADRC record. */
    method ParseAdrc(ghost ln: Line, slot: nat) returns (ok: bool)
      requires StringAt(save)
      requires Filled(ln, 0) && ln.kind.Adrc? && ln.slot == slot < 3
      modifies this`save, this`tables, buf
      ensures StringAt(save)
      ensures ok <==> |ln.vals| >= Needed(ln.kind, ln.vals)
      ensures if ok then tables == Effect(ln.before, ln.kind, slot, ln.vals, cal)
              else exists n: nat :: Filled(ln, n)
    {
      hide Filled, Reading, PutN;
      ok := NextAll([AdrcFlag(slot), AdrcParam(slot, 0), AdrcParam(slot, 1), AdrcParam(slot, 2),
                     AdrcParam(slot, 3), AdrcParam(slot, 4), AdrcParam(slot, 5), AdrcParam(slot, 6),
                     AdrcParam(slot, 7)], ln, 0);
      if !ok { return; }
      FilledMeans(ln, 9);
    }

    /** Ten parameters for each configured band. */
    method ParseBands(ghost ln: Line, slot: nat, bands: int) returns (ok: bool)
      requires StringAt(save)
      requires Filled(ln, 7) && |ln.vals| >= 7 && ln.kind.Mbadrc? && ln.slot == slot < 3 && 0 <= bands == Val(ln.vals, 0) <= 5
      modifies this`save, this`tables, buf
      ensures StringAt(save)
      ensures ok <==> |ln.vals| >= 7 + 10 * bands
      ensures if ok then Filled(ln, 7 + 10 * bands) else exists n: nat :: Filled(ln, n)
    {
      hide Filled, Reading, PutN;
      ok := true;
      var i := 0;
      while i < bands
        invariant 0 <= i <= bands && ok && StringAt(save) && Filled(ln, 7 + 10 * i) && 7 + 10 * i <= |ln.vals|
      {
        var j := 0;
        while j < 10
          invariant 0 <= j <= 10 && ok && StringAt(save) && Filled(ln, 7 + 10 * i + j) && 7 + 10 * i + j <= |ln.vals|
        {
          ok := Next(MbBand(slot, i, j), ln, 7 + 10 * i + j); if !ok { return; }
          j := j + 1;
        }
        i := i + 1;
      }
    }

    /** The words of the external buffer. */
    method ParseExternal(ghost ln: Line, slot: nat, bands: int, words: int) returns (ok: bool)
      requires StringAt(save)
      requires 0 <= bands == Val(ln.vals, 0) <= 5 && 0 <= words == Val(ln.vals, 3) / 2 <= 196
      requires Filled(ln, 7 + 10 * bands) && 7 + 10 * bands <= |ln.vals| && ln.kind.Mbadrc? && ln.slot == slot < 3
      modifies this`save, this`tables, buf
      ensures StringAt(save)
      ensures ok <==> |ln.vals| >= 7 + 10 * bands + words
      ensures if ok then Filled(ln, 7 + 10 * bands + words) else exists n: nat :: Filled(ln, n)
    {
      hide Filled, Reading, PutN;
      ok := true;
      var i := 0;
      while i < words
        invariant 0 <= i <= words && ok && StringAt(save) && Filled(ln, 7 + 10 * bands + i) && 7 + 10 * bands + i <= |ln.vals|
      {
        ok := Next(MbExt(slot, i), ln, 7 + 10 * bands + i); if !ok { return; }
        i := i + 1;
      }
    }

    /** What follows the two checked sizes. */
    method ParseMbadrcTail(ghost ln: Line, slot: nat, bands: nat, words: nat) returns (ok: bool)
      requires StringAt(save)
      requires Filled(ln, 4) && |ln.vals| >= 4 && ln.kind.Mbadrc? && ln.slot == slot < 3
      requires bands == Val(ln.vals, 0) <= 5 && words == Val(ln.vals, 3) / 2 <= 196
      modifies this`save, this`tables, buf
      ensures StringAt(save)
      ensures ok <==> |ln.vals| >= 8 + 10 * bands + words
      ensures if ok then Filled(ln, 8 + 10 * bands + words) else exists n: nat :: Filled(ln, n)
    {
      hide Filled, Reading, PutN;
      ok := NextAll([MbExtPartition(slot), MbExtMsw(slot), MbExtLsw(slot)], ln, 4); if !ok { return; }
      ok := ParseBands(ln, slot, bands); if !ok { return; }
      ok := ParseExternal(ln, slot, bands, words); if !ok { return; }
      ok := Next(MbFlag(slot), ln, 7 + 10 * bands + words);
    }

    /** MB_ADRC record. */
    method ParseMbadrc(ghost ln: Line, slot: nat) returns (ok: bool)
      requires StringAt(save)
      requires Filled(ln, 0) && ln.kind.Mbadrc? && ln.slot == slot < 3
      modifies this`save, this`tables, buf
      ensures StringAt(save)
      ensures ok <==> |ln.vals| >= Needed(ln.kind, ln.vals) && SizesOk(ln.kind, ln.vals)
      ensures if ok then tables == Effect(ln.before, ln.kind, slot, ln.vals, cal)
              else exists n: nat :: Filled(ln, n)
    {
      hide Filled, Reading, PutN;
      ok := Next(MbBands(slot), ln, 0); if !ok { return; }
      var bands := Get(tables, MbBands(slot));
      if bands > 5 { return false; }
      ok := NextAll([MbDownSamp(slot), MbDelay(slot), MbExtSize(slot)], ln, 1); if !ok { return; }
      var ext := Get(tables, MbExtSize(slot));
      if ext > 392 { return false; }
      ok := ParseMbadrcTail(ln, slot, bands, ext / 2); if !ok { return; }
      FilledMeans(ln, 8 + 10 * bands + ext / 2);
    }

    /** TX_IIR record. */
    method ParseTxIir(ghost ln: Line, slot: nat) returns (ok: bool)
      requires StringAt(save)
      requires Filled(ln, 0) && ln.kind.TxIir? && ln.slot == slot < 9
      modifies this`save, this`tables, buf
      ensures StringAt(save)
      ensures ok <==> |ln.vals| >= Needed(ln.kind, ln.vals)
      ensures if ok then tables == Effect(ln.before, ln.kind, slot, ln.vals, cal)
              else exists n: nat :: Filled(ln, n)
    {
      hide Filled, Reading, PutN;
      var i := 0;
      while i < 48
        invariant 0 <= i <= 48 && StringAt(save) && Filled(ln, i)
      {
        var j := if i >= 40 then i else if i % 2 != 0 then i - 1 else i + 1;
        ok := Next(TxParam(slot, j), ln, i); if !ok { return; }
        i := i + 1;
      }
      ok := NextAll([TxActive(slot), TxFlag(0), TxBands(slot)], ln, 48); if !ok { return; }
      ok := NextUnused(ln, 51); if !ok { return; }
      FilledMeans(ln, 52);
      WordIsStored(ln, 49, 52);
      tables := tables[TxCmd(slot) := 0];
      if Get(tables, TxFlag(0)) != 0 {
        tables := tables[PreprocBit(slot, TxIir) := 1];
      }
    }

    /** AGC record. */
    method ParseAgc(ghost ln: Line, slot: nat) returns (ok: bool)
      requires StringAt(save)
      requires Filled(ln, 0) && ln.kind.Agc? && ln.slot == slot < 9
      modifies this`save, this`tables, buf
      ensures StringAt(save)
      ensures ok <==> |ln.vals| >= Needed(ln.kind, ln.vals)
      ensures if ok then tables == Effect(ln.before, ln.kind, slot, ln.vals, cal)
              else exists n: nat :: Filled(ln, n)
    {
      hide Filled, Reading, PutN;
      ok := NextAll([AgcCmd(slot), AgcMask(slot), AgcEnable(slot), AgcStatic(slot), AgcAdaptive(slot)], ln, 0);
      if !ok { return; }
      var i := 0;
      while i < 19
        invariant 0 <= i <= 19 && StringAt(save) && Filled(ln, 5 + i)
      {
        ok := Next(AgcParam(slot, i), ln, 5 + i);
        if !ok { return; }
        i := i + 1;
      }
      ok := Next(AgcFlag(0), ln, 24); if !ok { return; }
      FilledMeans(ln, 25);
      WordIsStored(ln, 24, 25);
      if Get(tables, AgcFlag(0)) != 0 {
        tables := tables[PreprocBit(slot, Agc) := 1];
      }
    }

    /** NS record. */
    method ParseNs(ghost ln: Line, slot: nat) returns (ok: bool)
      requires StringAt(save)
      requires Filled(ln, 0) && ln.kind.Ns? && ln.slot == slot < 9
      modifies this`save, this`tables, buf
      ensures StringAt(save)
      ensures ok <==> |ln.vals| >= Needed(ln.kind, ln.vals)
      ensures if ok then tables == Effect(ln.before, ln.kind, slot, ln.vals, cal)
              else exists n: nat :: Filled(ln, n)
    {
      hide Filled, Reading, PutN;
      ok := NextAll([NsCmd(slot), NsEcMode(slot), NsDensGamma(slot), NsBlockSize(slot),
                     NsLimit(slot), NsLimitD(slot), NsWbGammaE(slot), NsWbGammaN(slot),
                     NsFlag(0)], ln, 0);
      if !ok { return; }
      FilledMeans(ln, 9);
      WordIsStored(ln, 8, 9);
      if Get(tables, NsFlag(0)) != 0 {
        tables := tables[PreprocBit(slot, Ns) := 1];
      }
    }

    /** Gain, frequency, type and quality of one equalizer band. */
    method NextBand(ghost ln: Line, ghost i: nat) returns (ok: bool, gain: int, freq: int, typ: int, qf: int)
      requires Reading(ln, 4 * i + 1) && 4 * i + 1 <= |ln.vals|
      modifies this`save, buf
      ensures StringAt(save)
      ensures ok <==> 4 * i + 5 <= |ln.vals|
      ensures ok ==> Reading(ln, 4 * i + 5) && gain == ln.vals[4 * i + 1] && freq == ln.vals[4 * i + 2]
                     && typ == ln.vals[4 * i + 3] && qf == ln.vals[4 * i + 4]
    {
      hide Reading;
      freq, typ, qf := 0, 0, 0;
      ok, gain := NextWord(ln, 4 * i + 1); if !ok { return; }
      ok, freq := NextWord(ln, 4 * i + 2); if !ok { return; }
      ok, typ := NextWord(ln, 4 * i + 3); if !ok { return; }
      ok, qf := NextWord(ln, 4 * i + 4);
    }

    /** The stores of one equalizer band. */
    method StoreBand(slot: nat, bands: int, i: nat, out: EqOut)
      requires i < bands <= 12
      modifies this`tables
      ensures tables == StoreParts(old(tables), slot, bands, i, out)
    {
      hide StoreRange;
      ghost var t := tables;
      StoreNone(t, slot, i * 6);
      var j := 0;
      while j < 6
        invariant 0 <= j <= 6 && tables == StoreRange(t, slot, i * 6, out.num[..j])
      {
        StoreOneMore(t, slot, i * 6, out.num[..j], out.num[j]);
        tables := tables[EqParam(slot, i * 6 + j) := out.num[j]];
        assert out.num[..j + 1] == out.num[..j] + [out.num[j]];
        j := j + 1;
      }
      assert out.num[..6] == out.num && out.den[..4] == out.den;
      t := tables;
      StoreNone(t, slot, bands * 6 + i * 4);
      j := 0;
      while j < 4
        invariant 0 <= j <= 4 && tables == StoreRange(t, slot, bands * 6 + i * 4, out.den[..j])
      {
        StoreOneMore(t, slot, bands * 6 + i * 4, out.den[..j], out.den[j]);
        tables := tables[EqParam(slot, bands * 6 + i * 4 + j) := out.den[j]];
        assert out.den[..j + 1] == out.den[..j] + [out.den[j]];
        j := j + 1;
      }
      t := tables;
      StoreNone(t, slot, bands * 10 + i);
      StoreOneMore(t, slot, bands * 10 + i, [], out.shift);
      tables := tables[EqParam(slot, bands * 10 + i) := out.shift];
      assert [] + [out.shift] == [out.shift];
    }

    /** EQ record: the coefficients of each band come from the vendor routine. */
    method ParseEq(ghost ln: Line, slot: nat) returns (ok: bool)
      requires Filled(ln, 0) && ln.kind.Eq? && ln.slot == slot < 3
      modifies this`save, this`tables, buf
      ensures StringAt(save)
      ensures ok <==> haveEq && |ln.vals| >= Needed(ln.kind, ln.vals)
      ensures ok ==> tables == Effect(ln.before, ln.kind, slot, ln.vals, cal)
      ensures Outside(tables, ln.before, ln.kind, slot)
    {
      hide Reading, Filled, PutN, EqProgress, StoreParts, BandOut, Effect, Outside;
      ok := Next(EqFlag(slot), ln, 0);
      FilledMeans(ln, if ok then 1 else 0);
      if !ok { return; }
      if !haveEq { return false; }
      EqProgressStarts(ln.before, slot, ln.vals, cal);
      tables := tables + EqZeros(slot);
      tables := tables[EqBands(slot) := 8];
      EqProgressOutside(ln.before, slot, ln.vals, 0, cal);
      var bands := Get(tables, EqBands(slot));
      var i := 0;
      while i < bands
        invariant 0 <= i <= bands == 8 && 4 * i + 1 <= |ln.vals| && Reading(ln, 4 * i + 1)
        invariant ok && StringAt(save) && tables == EqProgress(ln.before, slot, ln.vals, i, cal)
        invariant Outside(tables, ln.before, Eq, slot)
      {
        var gain, freq, typ, qf;
        ok, gain, freq, typ, qf := NextBand(ln, i);
        if !ok { return; }
        StoreBand(slot, bands, i, cal(ToInt16(gain), freq, typ, qf));
        EqProgressStep(ln.before, slot, ln.vals, i, cal);
        EqProgressOutside(ln.before, slot, ln.vals, i + 1, cal);
        i := i + 1;
      }
      EqProgressEnds(ln.before, slot, ln.vals, cal);
    }

    /** The fields of a recognised line. */
    method ParseRecord(start: nat, kind: Kind, slot: nat)
      returns (ok: bool)
      requires StringAt(start) && SlotOk(kind, slot)
      modifies this`save, this`tables, buf
      ensures buf.Length > end && buf[end..] == tail
      ensures var vals := old(Payload(kind, buf[start..end]));
              && (ok <==> Needed(kind, vals) <= |vals| && SizesOk(kind, vals) && (kind.Eq? ==> haveEq))
              && (ok ==> tables == Effect(old(tables), kind, slot, vals, cal))
      ensures Outside(tables, old(tables), kind, slot)
    {
      ghost var line := buf[start..end];
      ghost var ln := Line(tables, kind, slot, Payload(kind, line));
      ok := Header(start, !kind.Agc? && !kind.Ns?, line, kind, slot);
      if !ok { return; }
      assert Filled(ln, 0);
      match kind {
        case Iir => ok := ParseIir(ln, slot);
        case Adrc => ok := ParseAdrc(ln, slot);
        case Eq => ok := ParseEq(ln, slot); return;
        case Mbadrc => ok := ParseMbadrc(ln, slot);
        case TxIir => ok := ParseTxIir(ln, slot);
        case Agc => ok := ParseAgc(ln, slot);
        case Ns => ok := ParseNs(ln, slot);
      }
      if ok {
        PutNOutside(ln.before, kind, slot, ln.vals, Needed(kind, ln.vals));
      } else {
        ghost var n: nat :| Filled(ln, n);
        FilledMeans(ln, n);
      }
    }

    lemma Surplus(kind: Kind, slot: nat, line: seq<char>)
      ensures var vals := Payload(kind, line);
              var n := Needed(kind, vals);
              && 0 < n
              && (n <= |vals| ==>
                    && n == Needed(kind, vals[..n])
                    && Effect(tables, kind, slot, vals[..n], cal) == Effect(tables, kind, slot, vals, cal))
    {
      var vals := Payload(kind, line);
      if Needed(kind, vals) <= |vals| {
        SurplusWordsDoNotCount(tables, kind, slot, vals, cal);
      }
    }

    /** One line: which record it is by its first two characters, then its fields.
        What it does depends on nothing but the line: no earlier state of the
        tokenizer is required. */
    method CheckAndSet(start: nat) returns (ok: bool)
      requires StringAt(start)
      modifies this`save, this`tables, buf
      ensures buf.Length > end && buf[end..] == tail
      ensures match old(MeaningOf(buf[start..end], haveEq))
              case Ignore => ok && tables == old(tables)
              case Reject => !ok && OutsideLine(tables, old(tables), old(buf[start..end]))
              case Accept(r) => ok && Wellformed(r) && tables == Apply(old(tables), r, cal)
    {
      hide Payload, Needed, SizesOk, Effect, Outside, Wellformed;
      ghost var line := buf[start..end];
      AcceptedIsWellformed(line, haveEq);
      var c := buf[start];
      assert c == CharAt(line, 0);
      var d := if c == NUL then NUL else buf[start + 1];
      assert d == CharAt(line, 1);
      if c in {'A', 'B', 'C', 'D'} && '1' <= d <= '3' {
        var kind := if c == 'A' then Iir else if c == 'B' then Adrc else if c == 'C' then Eq else Mbadrc;
        Surplus(kind, d as int - '1' as int, line);
        ok := ParseRecord(start, kind, d as int - '1' as int);
      } else if c == 'E' || c == 'F' || c == 'G' {
        if !('1' <= d <= '9') { return false; }
        var kind := if c == 'E' then TxIir else if c == 'F' then Agc else Ns;
        Surplus(kind, d as int - '1' as int, line);
        ok := ParseRecord(start, kind, d as int - '1' as int);
      } else {
        ok := true;
      }
    }

    /** The next newline or NUL, or the end of the mapping. */
    method FindNewline(cur: nat) returns (nl: nat)
      requires cur <= buf.Length
      ensures cur <= nl <= buf.Length && '\n' !in buf[cur..nl] && NUL !in buf[cur..nl]
      ensures nl < buf.Length ==> buf[nl] == '\n' || buf[nl] == NUL
      ensures nl == buf.Length || buf[nl] == NUL ==> Lines(buf[cur..]) == [] && (NUL in buf[cur..] <==> nl < buf.Length)
    {
      nl := cur;
      while nl < buf.Length && buf[nl] != '\n' && buf[nl] != NUL
        invariant cur <= nl <= buf.Length
        invariant '\n' !in buf[cur..nl] && NUL !in buf[cur..nl]
        decreases buf.Length - nl
      {
        nl := nl + 1;
      }
      if nl == buf.Length || buf[nl] == NUL {
        assert buf[cur..][..nl - cur] == buf[cur..nl];
        LinesEnd(buf[cur..], nl - cur);
        assert nl < buf.Length ==> buf[cur..][nl - cur] == NUL;
      }
    }

    /** The whole file, line by line: cut at the newline, parse, go on. Every read
        stays inside the mapping unless it has no NUL and no bad line. */
    method Load() returns (r: Outcome)
      modifies this, buf
      ensures var loaded := old(LoadLines(tables, Lines(buf[..]), haveEq, cal));
              && r == (if loaded.bad.Some? then Rejected else if NUL in old(buf[..]) then Complete else PastEnd)
              && (loaded.bad == None ==> tables == loaded.tables)
              && (loaded.bad.Some? ==> OutsideLine(tables, loaded.tables, loaded.bad.value))
    {
      hide Lines, LoadLines, MeaningOf, OutsideLine, Wellformed;
      LoadNone(haveEq, cal);
      ghost var goal := LoadLines(tables, Lines(buf[..]), haveEq, cal);
      ghost var ends := NUL in buf[..];
      var cur := 0;
      assert buf[0..] == buf[..];
      while true
        invariant 0 <= cur <= buf.Length
        invariant goal == LoadLines(tables, Lines(buf[cur..]), haveEq, cal)
        invariant ends == (NUL in buf[cur..])
        decreases buf.Length - cur
      {
        var nl := FindNewline(cur);
        if nl == buf.Length || buf[nl] == NUL {
          return if nl < buf.Length then Complete else PastEnd;
        }
        ghost var line, rest := buf[cur..nl], buf[nl + 1..];
        assert buf[cur..] == line + "\n" + rest;
        LinesCons(line, rest);
        LoadCons(tables, line, Lines(rest), haveEq, cal);
        buf[nl] := NUL;
        end := nl;
        tail := buf[nl..];
        assert buf[cur..nl] == line && tail[1..] == rest;
        AcceptedIsWellformed(line, haveEq);
        var ok := CheckAndSet(cur);
        if !ok { return Rejected; }
        cur := nl + 1;
        assert buf[cur..] == tail[1..];
      }
    }
  }
}
