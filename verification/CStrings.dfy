/**
 C strings as the filter loader uses them: comma separated fields, newline
 terminated lines and the number parser of the C library.
 */
module CStrings {
  const NUL: char := '\0'

  /** The string that starts at p: everything up to the first NUL. */
  function StrAt(b: seq<char>, p: nat): (s: seq<char>)
    decreases |b| - p
  {
    if p >= |b| || b[p] == NUL then [] else [b[p]] + StrAt(b, p + 1)
  }

  lemma {:induction false} StrAtIs(b: seq<char>, p: nat, e: nat)
    requires p <= e < |b| && b[e] == NUL && NUL !in b[p..e]
    ensures StrAt(b, p) == b[p..e]
    decreases e - p
  {
    if p < e {
      assert b[p] in b[p..e];
      StrAtIs(b, p + 1, e);
      assert b[p..e] == [b[p]] + b[p + 1..e];
    }
  }

  // ------------------------------------------------------------- fields

  /** Length of the leading run without a comma. */
  function FieldEnd(s: seq<char>): (k: nat)
    ensures k <= |s| && ',' !in s[..k] && (k < |s| ==> s[k] == ',')
  {
    if s == [] || s[0] == ',' then 0
    else
      var k := FieldEnd(s[1..]);
      assert s[..k + 1] == [s[0]] + s[1..][..k];
      k + 1
  }

  lemma FieldEndIs(s: seq<char>, k: nat)
    requires k <= |s| && ',' !in s[..k] && (k < |s| ==> s[k] == ',')
    ensures FieldEnd(s) == k
  {
    if k > 0 {
      assert s[0] in s[..k];
      assert s[1..][..k - 1] == s[..k][1..];
      FieldEndIs(s[1..], k - 1);
    }
  }

  /** The non-empty comma separated fields of a line, in order. */
  function Fields(s: seq<char>): (fs: seq<seq<char>>)
    decreases |s|
  {
    if s == [] then []
    else if s[0] == ',' then Fields(s[1..])
    else var k := FieldEnd(s); [s[..k]] + Fields(s[k..])
  }

  /** Cutting at every comma, empty pieces included. */
  function Split(s: seq<char>): (ps: seq<seq<char>>)
    ensures |ps| > 0
    decreases |s|
  {
    var k := FieldEnd(s);
    if k == |s| then [s] else [s[..k]] + Split(s[k + 1..])
  }

  function Join(ps: seq<seq<char>>): seq<char>
    requires |ps| > 0
  {
    if |ps| == 1 then ps[0] else ps[0] + "," + Join(ps[1..])
  }

  function NonEmpty(ps: seq<seq<char>>): seq<seq<char>>
  {
    if ps == [] then [] else (if ps[0] == [] then [] else [ps[0]]) + NonEmpty(ps[1..])
  }

  /** Split is the inverse of Join, so its pieces are the text between commas. */
  lemma {:induction false} SplitIsCutAtCommas(s: seq<char>)
    ensures Join(Split(s)) == s
    ensures forall p | p in Split(s) :: ',' !in p
    decreases |s|
  {
    var k := FieldEnd(s);
    if k < |s| {
      SplitIsCutAtCommas(s[k + 1..]);
      assert Split(s)[1..] == Split(s[k + 1..]);
      assert s == s[..k] + "," + s[k + 1..];
    } else {
      assert s[..k] == s;
    }
  }

  lemma {:induction false} FieldsAppend(a: seq<char>, b: seq<char>)
    ensures Fields(a + "," + b) == Fields(a) + Fields(b)
    decreases |a|
  {
    var s := a + "," + b;
    if a == [] {
      assert s[1..] == b;
    } else if a[0] == ',' {
      FieldsAppend(a[1..], b);
      assert s[1..] == a[1..] + "," + b;
    } else {
      var k := FieldEnd(a);
      assert s[..k] == a[..k];
      FieldEndIs(s, k);
      FieldsAppend(a[k..], b);
      assert s[k..] == a[k..] + "," + b;
    }
  }

  lemma FieldsOfPiece(s: seq<char>)
    requires ',' !in s
    ensures Fields(s) == if s == [] then [] else [s]
  {
    if s != [] {
      FieldEndIs(s, |s|);
      assert s[..|s|] == s && s[|s|..] == [];
    }
  }

  /** What the tokenizer returns is exactly the non-empty pieces between commas. */
  lemma {:induction false} FieldsAreTheNonEmptyPieces(s: seq<char>)
    ensures Fields(s) == NonEmpty(Split(s))
    decreases |s|
  {
    var k := FieldEnd(s);
    assert s == s[..k] + s[k..];
    FieldsOfPiece(s[..k]);
    if k < |s| {
      assert s == s[..k] + "," + s[k + 1..];
      FieldsAppend(s[..k], s[k + 1..]);
      FieldsAreTheNonEmptyPieces(s[k + 1..]);
      assert Split(s)[1..] == Split(s[k + 1..]);
    } else {
      assert s[..k] == s;
      assert Split(s)[1..] == [];
    }
  }

  function Commas(n: nat): seq<char> {
    seq(n, i => ',')
  }

  lemma {:induction false} FieldsOfCommas(n: nat, b: seq<char>)
    ensures Fields(Commas(n) + b) == Fields(b)
  {
    if n == 0 {
      assert Commas(n) + b == b;
    } else {
      FieldsOfCommas(n - 1, b);
      assert (Commas(n) + b)[1..] == Commas(n - 1) + b;
    }
  }

  /** Any number of extra commas, between fields or at the end, is invisible. */
  lemma {:induction false} CommasDoNotCount(a: seq<char>, n: nat, b: seq<char>)
    ensures Fields(a + "," + Commas(n) + b) == Fields(a + "," + b)
    ensures Fields(a + Commas(n)) == Fields(a)
  {
    FieldsOfCommas(n, b);
    FieldsAppend(a, Commas(n) + b);
    assert a + "," + (Commas(n) + b) == a + "," + Commas(n) + b;
    FieldsAppend(a, b);
    if n > 0 {
      assert a + Commas(n) == a + "," + Commas(n - 1);
      FieldsAppend(a, Commas(n - 1));
      FieldsOfCommas(n - 1, []);
      assert Commas(n - 1) + [] == Commas(n - 1);
    } else {
      assert a + Commas(n) == a;
    }
  }

  // -------------------------------------------------------------- lines

  /** Position of the first newline or NUL, or the length. */
  function LineEnd(s: seq<char>): (k: nat)
    ensures k <= |s| && '\n' !in s[..k] && NUL !in s[..k]
    ensures k < |s| ==> s[k] == '\n' || s[k] == NUL
  {
    if s == [] || s[0] == '\n' || s[0] == NUL then 0
    else
      var k := LineEnd(s[1..]);
      assert s[..k + 1] == [s[0]] + s[1..][..k];
      k + 1
  }

  lemma LineEndIs(s: seq<char>, k: nat)
    requires k <= |s| && '\n' !in s[..k] && NUL !in s[..k]
    requires k < |s| ==> s[k] == '\n' || s[k] == NUL
    ensures LineEnd(s) == k
  {
    if k > 0 {
      assert s[0] in s[..k];
      assert s[1..][..k - 1] == s[..k][1..];
      LineEndIs(s[1..], k - 1);
    }
  }

  /** The newline terminated lines before the first NUL. A last line without a
      newline is not one of them. */
  function Lines(s: seq<char>): (ls: seq<seq<char>>)
    decreases |s|
  {
    var k := LineEnd(s);
    if k < |s| && s[k] == '\n' then [s[..k]] + Lines(s[k + 1..]) else []
  }

  lemma LinesCons(line: seq<char>, rest: seq<char>)
    requires '\n' !in line && NUL !in line
    ensures Lines(line + "\n" + rest) == [line] + Lines(rest)
  {
    var s := line + "\n" + rest;
    assert s[..|line|] == line;
    LineEndIs(s, |line|);
    assert s[|line| + 1..] == rest;
  }

  lemma LinesEnd(s: seq<char>, k: nat)
    requires k <= |s| && '\n' !in s[..k] && NUL !in s[..k] && (k < |s| ==> s[k] == NUL)
    ensures Lines(s) == []
  {
    LineEndIs(s, k);
  }

  // ------------------------------------------------------------ numbers

  predicate IsSpace(c: char) {
    c == ' ' || 9 as char <= c <= 13 as char
  }

  /** Value of a hexadecimal digit, -1 for every other character. */
  function DigitValue(c: char): (d: int)
    ensures -1 <= d < 16
  {
    if '0' <= c <= '9' then c as int - '0' as int
    else if 'A' <= c <= 'F' then c as int - 'A' as int + 10
    else if 'a' <= c <= 'f' then c as int - 'a' as int + 10
    else -1
  }

  function SkipSpaces(s: seq<char>): seq<char> {
    if s != [] && IsSpace(s[0]) then SkipSpaces(s[1..]) else s
  }

  function HexRun(s: seq<char>, acc: nat): nat
    decreases |s|
  {
    if s == [] || DigitValue(s[0]) < 0 then acc else HexRun(s[1..], 16 * acc + DigitValue(s[0]))
  }

  /** strtol with base 16 and a 32-bit long: spaces, sign, optional 0x, the
      longest run of digits, and saturation at the ends of the type. */
  function Strtol16(s: seq<char>): (v: int)
    ensures -0x8000_0000 <= v <= 0x7fff_ffff
  {
    var t := SkipSpaces(s);
    var negative := t != [] && t[0] == '-';
    var u := if t != [] && (t[0] == '-' || t[0] == '+') then t[1..] else t;
    var w := if |u| >= 2 && u[0] == '0' && (u[1] == 'x' || u[1] == 'X') then u[2..] else u;
    var n: int := HexRun(w, 0);
    if negative then (if n > 0x8000_0000 then -0x8000_0000 else -n)
    else if n > 0x7fff_ffff then 0x7fff_ffff else n
  }

  /** The cast of a parsed number to uint16_t. */
  function Word(s: seq<char>): (w: int)
    ensures 0 <= w < 0x1_0000
  {
    Strtol16(s) % 0x1_0000
  }

  function Words(ss: seq<seq<char>>): (ws: seq<int>)
    ensures |ws| == |ss|
    ensures forall k | 0 <= k < |ws| :: ws[k] == Word(ss[k])
  {
    seq(|ss|, k requires 0 <= k < |ss| => Word(ss[k]))
  }

  function Digit(d: int): (c: char)
    requires 0 <= d < 16
    ensures DigitValue(c) == d && c != ',' && c != '\n' && c != NUL && !IsSpace(c)
    ensures c != '-' && c != '+' && c != 'x' && c != 'X'
  {
    if d < 10 then ('0' as int + d) as char else ('A' as int + d - 10) as char
  }

  function Hex4(v: int): (s: seq<char>)
    requires 0 <= v < 0x1_0000
    ensures |s| == 4 && forall c | c in s :: c != ',' && c != '\n' && c != NUL
  {
    var p := v / 16;
    var q := p / 16;
    [Digit(q / 16), Digit(q % 16), Digit(p % 16), Digit(v % 16)]
  }

  lemma HexRunStep(d: int, t: seq<char>, acc: nat)
    requires 0 <= d < 16
    ensures HexRun([Digit(d)] + t, acc) == HexRun(t, 16 * acc + d)
  {
    assert ([Digit(d)] + t)[1..] == t;
  }

  lemma HexRunOf4(a: int, b: int, c: int, d: int)
    requires 0 <= a < 16 && 0 <= b < 16 && 0 <= c < 16 && 0 <= d < 16
    ensures HexRun([Digit(a), Digit(b), Digit(c), Digit(d)], 0) == 4096 * a + 256 * b + 16 * c + d
  {
    HexRunStep(a, [Digit(b), Digit(c), Digit(d)], 0);
    HexRunStep(b, [Digit(c), Digit(d)], a);
    HexRunStep(c, [Digit(d)], 16 * a + b);
    HexRunStep(d, [], 16 * (16 * a + b) + c);
    assert [Digit(a), Digit(b), Digit(c), Digit(d)] == [Digit(a)] + [Digit(b), Digit(c), Digit(d)];
    assert [Digit(b), Digit(c), Digit(d)] == [Digit(b)] + [Digit(c), Digit(d)];
    assert [Digit(c), Digit(d)] == [Digit(c)] + [Digit(d)];
    assert [Digit(d)] == [Digit(d)] + [];
  }

  /** A string of plain digits is read as its run of digits. */
  lemma StrtolOfDigits(s: seq<char>)
    requires |s| >= 2 && !IsSpace(s[0]) && s[0] != '-' && s[0] != '+' && s[1] != 'x' && s[1] != 'X'
    requires HexRun(s, 0) < 0x1_0000
    ensures Word(s) == HexRun(s, 0)
  {
  }

  /** Reading back a printed 16-bit value gives the value. */
  lemma HexRoundTrip(v: int)
    requires 0 <= v < 0x1_0000
    ensures Word(Hex4(v)) == v
  {
    var p := v / 16;
    var q := p / 16;
    HexRunOf4(q / 16, q % 16, p % 16, v % 16);
    StrtolOfDigits(Hex4(v));
  }

  /** Digits that start with none of the marks the parser looks for. */
  predicate PlainDigits(s: seq<char>) {
    |s| >= 2 && !IsSpace(s[0]) && s[0] != '-' && s[0] != '+' && s[1] != 'x' && s[1] != 'X'
  }

  lemma Hex4IsPlain(v: int)
    requires 0 <= v < 0x1_0000
    ensures PlainDigits(Hex4(v)) && HexRun(Hex4(v), 0) == v
  {
    var p := v / 16;
    var q := p / 16;
    HexRunOf4(q / 16, q % 16, p % 16, v % 16);
    hide HexRun;
  }

  lemma PrefixForms(s: seq<char>)
    requires PlainDigits(s) && HexRun(s, 0) < 0x1_0000
    ensures Word(" " + s) == Word("+" + s) == HexRun(s, 0)
  {
    hide HexRun;
    assert (" " + s)[1..] == s && ("+" + s)[1..] == s;
    assert SkipSpaces(s) == s;
  }

  lemma HexPrefixForm(s: seq<char>)
    requires PlainDigits(s) && HexRun(s, 0) < 0x1_0000
    ensures Word("0x" + s) == HexRun(s, 0)
  {
    hide HexRun;
    assert ("0x" + s)[2..] == s;
  }

  lemma MinusForm(s: seq<char>)
    requires PlainDigits(s) && HexRun(s, 0) < 0x1_0000
    ensures Word("-" + s) == (0x1_0000 - HexRun(s, 0)) % 0x1_0000
  {
    hide HexRun;
    assert ("-" + s)[1..] == s;
  }

  /** A blank, a sign or 0x in front of the digits; a minus sign takes the value off 2^16. */
  lemma WordForms(v: int)
    requires 0 <= v < 0x1_0000
    ensures Word(" " + Hex4(v)) == Word("+" + Hex4(v)) == Word("0x" + Hex4(v)) == v
    ensures Word("-" + Hex4(v)) == (0x1_0000 - v) % 0x1_0000
  {
    hide *;
    Hex4IsPlain(v);
    PrefixForms(Hex4(v));
    HexPrefixForm(Hex4(v));
    MinusForm(Hex4(v));
  }
}
