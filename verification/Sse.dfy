/** The event framing of streamSSE in internal/proxy/extract.go, as pure functions on bytes:
    a stream splits into lines, lines group into events, and some events are dropped. */
module Sse {
  import opened Json

  const LF: Byte := 10
  const CR: Byte := 13

  /** A line keeps its line feed. */
  type Line = Bytes

  type Event = seq<Line>

  function Flat(ls: seq<Bytes>): Bytes {
    if ls == [] then [] else ls[0] + Flat(ls[1..])
  }

  /** The bytes of a sequence of events. */
  function FlatAll(es: seq<Event>): Bytes {
    if es == [] then [] else Flat(es[0]) + FlatAll(es[1..])
  }

  // --- Whitespace ---

  /** The length of the white-space character (UTF-8) that s begins with, 0 if it begins with none. */
  function SpaceAt(s: Bytes): (n: nat)
    ensures n <= |s|
  {
    if |s| >= 1 && (9 <= s[0] <= 13 || s[0] == 0x20) then 1
    else if |s| >= 2 && s[0] == 0xC2 && (s[1] == 0x85 || s[1] == 0xA0) then 2
    else if |s| >= 3 && IsWideSpace(s[0], s[1], s[2]) then 3
    else 0
  }

  predicate IsWideSpace(a: Byte, b: Byte, c: Byte) {
    || (a == 0xE1 && b == 0x9A && c == 0x80)
    || (a == 0xE2 && b == 0x80 && (0x80 <= c <= 0x8A || c == 0xA8 || c == 0xA9 || c == 0xAF))
    || (a == 0xE2 && b == 0x81 && c == 0x9F)
    || (a == 0xE3 && b == 0x80 && c == 0x80)
  }

  /** The length of the white-space character that s ends with, 0 if it ends with none. */
  function SpaceBefore(s: Bytes): (n: nat)
    ensures n <= |s|
  {
    if |s| >= 1 && SpaceAt(s[|s| - 1..]) == 1 then 1
    else if |s| >= 2 && SpaceAt(s[|s| - 2..]) == 2 then 2
    else if |s| >= 3 && SpaceAt(s[|s| - 3..]) == 3 then 3
    else 0
  }

  function TrimLeft(s: Bytes): Bytes {
    if SpaceAt(s) == 0 then s else TrimLeft(s[SpaceAt(s)..])
  }

  function TrimRight(s: Bytes): Bytes {
    if SpaceBefore(s) == 0 then s else TrimRight(s[..|s| - SpaceBefore(s)])
  }

  function TrimSpace(s: Bytes): Bytes {
    TrimRight(TrimLeft(s))
  }

  /** A prefix of s begins with white space only if s does. */
  lemma SpaceAtPrefix(s: Bytes, n: nat)
    requires n <= |s| && SpaceAt(s) == 0
    ensures SpaceAt(s[..n]) == 0
  {
  }

  lemma {:induction false} TrimLeftBare(s: Bytes)
    ensures SpaceAt(TrimLeft(s)) == 0
    ensures |TrimLeft(s)| <= |s| && TrimLeft(s) == s[|s| - |TrimLeft(s)|..]
  {
    if SpaceAt(s) > 0 {
      TrimLeftBare(s[SpaceAt(s)..]);
    }
  }

  lemma {:induction false} TrimRightBare(s: Bytes)
    ensures SpaceBefore(TrimRight(s)) == 0
    ensures |TrimRight(s)| <= |s| && TrimRight(s) == s[..|TrimRight(s)|]
  {
    if SpaceBefore(s) > 0 {
      TrimRightBare(s[..|s| - SpaceBefore(s)]);
    }
  }

  /** A trimmed text is a piece of the text with no white space at either end. */
  lemma TrimmedBare(s: Bytes)
    ensures SpaceAt(TrimSpace(s)) == 0 && SpaceBefore(TrimSpace(s)) == 0
    ensures exists i, j :: 0 <= i <= j <= |s| && TrimSpace(s) == s[i..j]
  {
    hide SpaceAt, SpaceBefore;
    TrimLeftBare(s);
    var t := TrimLeft(s);
    TrimRightBare(t);
    SpaceAtPrefix(t, |TrimRight(t)|);
    var i := |s| - |t|;
    assert TrimSpace(s) == s[i..i + |TrimRight(t)|];
  }

  // --- What trimming is, in terms of characters ---

  /** The UTF-8 encoding of a code point. */
  function Utf8(c: nat): Bytes
    requires c < 0x11_0000
  {
    if c < 0x80 then [c as Byte]
    else if c < 0x800 then [(0xC0 + c / 64) as Byte, (0x80 + c % 64) as Byte]
    else if c < 0x1_0000 then [(0xE0 + c / 4096) as Byte, (0x80 + c / 64 % 64) as Byte, (0x80 + c % 64) as Byte]
    else [(0xF0 + c / 262144) as Byte, (0x80 + c / 4096 % 64) as Byte, (0x80 + c / 64 % 64) as Byte,
          (0x80 + c % 64) as Byte]
  }

  /** The code points that Go counts as white space. */
  predicate IsSpace(c: nat) {
    || 0x09 <= c <= 0x0D || c == 0x20 || c == 0x85 || c == 0xA0 || c == 0x1680 || 0x2000 <= c <= 0x200A
    || c == 0x2028 || c == 0x2029 || c == 0x202F || c == 0x205F || c == 0x3000
  }

  /** A text that begins with a character begins with white space exactly if the character is a space. */
  lemma SpaceAtIff(c: nat, rest: Bytes)
    requires c < 0x11_0000
    ensures SpaceAt(Utf8(c) + rest) == if IsSpace(c) then |Utf8(c)| else 0
  {
    if 0x800 <= c < 0x1_0000 {
      WideSpaceIff(c);
    }
  }

  lemma WideSpaceIff(c: nat)
    requires 0x800 <= c < 0x1_0000
    ensures var u := Utf8(c);
      IsWideSpace(u[0], u[1], u[2]) <==> IsSpace(c)
  {
    assert c == c / 4096 * 4096 + c / 64 % 64 * 64 + c % 64;
  }

  /** The encodings of white-space characters. */
  predicate White(cs: seq<Bytes>) {
    forall i :: 0 <= i < |cs| ==> cs[i] != [] && SpaceAt(cs[i]) == |cs[i]|
  }

  /** No white space at either end. */
  predicate Bare(x: Bytes) {
    SpaceAt(x) == 0 && SpaceBefore(x) == 0
  }

  lemma SpaceAtMore(c: Bytes, rest: Bytes)
    requires SpaceAt(c) > 0
    ensures SpaceAt(c + rest) == SpaceAt(c)
  {
  }

  /** Of a text that ends with a white-space character, that is the one it ends with. */
  lemma SpaceBeforeMore(s: Bytes, c: Bytes)
    requires c != [] && SpaceAt(c) == |c|
    ensures SpaceBefore(s + c) == |c|
  {
    var t := s + c;
    assert t[|t| - |c|..] == c;
    if |c| >= 2 {
      assert t[|t| - 1..] == [c[|c| - 1]];
    }
    if |c| == 3 {
      assert t[|t| - 2..] == [c[1], c[2]];
    }
  }

  lemma {:induction false} TrimLeftOf(cs: seq<Bytes>, y: Bytes)
    requires White(cs) && SpaceAt(y) == 0
    ensures TrimLeft(Flat(cs) + y) == y
  {
    if cs == [] {
      assert [] + y == y;
    } else {
      var rest := Flat(cs[1..]) + y;
      assert Flat(cs) + y == cs[0] + rest;
      SpaceAtMore(cs[0], rest);
      TrimLeftOf(cs[1..], y);
      assert (cs[0] + rest)[|cs[0]|..] == rest;
    }
  }

  lemma {:induction false} TrimRightOf(x: Bytes, cs: seq<Bytes>)
    requires White(cs) && SpaceBefore(x) == 0
    ensures TrimRight(x + Flat(cs)) == x
    decreases |cs|
  {
    if cs == [] {
      assert x + [] == x;
    } else {
      var n := |cs| - 1;
      hide SpaceAt, SpaceBefore;
      assert cs == cs[..n] + [cs[n]];
      FlatSnoc(cs[..n], cs[n]);
      assert x + Flat(cs) == (x + Flat(cs[..n])) + cs[n];
      SpaceBeforeMore(x + Flat(cs[..n]), cs[n]);
      TrimRightOf(x, cs[..n]);
      assert (x + Flat(cs))[..|x + Flat(cs)| - |cs[n]|] == x + Flat(cs[..n]);
    }
  }

  /** White space behind a text does not join its bytes to a white-space character. */
  lemma SpaceAtBehind(x: Bytes, cs: seq<Bytes>)
    requires White(cs) && x != [] && SpaceAt(x) == 0
    ensures SpaceAt(x + Flat(cs)) == 0
  {
    var b := Flat(cs);
    if cs != [] {
      assert b[0] == cs[0][0];
      assert b[0] < 0x80 || b[0] >= 0xC2;
    }
  }

  /** Trimming takes the white-space characters off both ends, whatever stands between, and nothing else. */
  lemma TrimSpaceOf(front: seq<Bytes>, x: Bytes, back: seq<Bytes>)
    requires White(front) && White(back) && Bare(x)
    ensures TrimSpace(Flat(front) + x + Flat(back)) == x
  {
    hide SpaceAt, SpaceBefore, TrimLeft, TrimRight, Flat;
    if x == [] {
      WhiteConcat(front, back);
      FlatConcat(front, back);
      FlatNothing();
      AddNothing(Flat(front));
      AddNothing(Flat(front + back));
      AddNothing([]);
      TrimLeftOf(front + back, []);
      TrimRightOf([], []);
    } else {
      JoinRight(Flat(front), x, Flat(back));
      SpaceAtBehind(x, back);
      TrimLeftOf(front, x + Flat(back));
      TrimRightOf(x, back);
    }
  }

  lemma WhiteConcat(a: seq<Bytes>, b: seq<Bytes>)
    requires White(a) && White(b)
    ensures White(a + b)
  {
    hide SpaceAt;
  }

  lemma {:induction false} LeftSpaces(s: Bytes) returns (front: seq<Bytes>)
    ensures White(front) && s == Flat(front) + TrimLeft(s)
  {
    if SpaceAt(s) == 0 {
      front := [];
    } else {
      var n := SpaceAt(s);
      FirstSpace(s, n);
      hide SpaceAt, TrimLeft, Flat;
      var more := LeftSpaces(s[n..]);
      front := [s[..n]] + more;
      WhiteConcat([s[..n]], more);
      FlatCons(s[..n], more);
      JoinRight(s[..n], Flat(more), TrimLeft(s[n..]));
    }
  }

  lemma FirstSpace(s: Bytes, n: nat)
    requires SpaceAt(s) > 0 && n == SpaceAt(s)
    ensures White([s[..n]]) && TrimLeft(s) == TrimLeft(s[n..]) && s == s[..n] + s[n..]
  {
    assert [s[..n]][0] == s[..n] && SpaceAt(s[..n]) == n;
  }

  lemma SpaceBeforeIs(s: Bytes)
    requires SpaceBefore(s) > 0
    ensures SpaceAt(s[|s| - SpaceBefore(s)..]) == SpaceBefore(s)
  {
  }

  lemma JoinRight(t: Bytes, f: Bytes, c: Bytes)
    ensures (t + f) + c == t + (f + c)
  {
  }

  lemma TrimRightStep(s: Bytes, n: nat)
    requires SpaceBefore(s) > 0 && n == |s| - SpaceBefore(s)
    ensures TrimRight(s) == TrimRight(s[..n])
  {
    hide SpaceAt, SpaceBefore;
  }

  lemma LastSpace(s: Bytes, n: nat)
    requires SpaceBefore(s) > 0 && n == |s| - SpaceBefore(s)
    ensures s[..n] + s[n..] == s && White([s[n..]])
  {
    SpaceBeforeIs(s);
    hide SpaceAt, SpaceBefore;
    assert [s[n..]][0] == s[n..];
  }

  lemma TrimRightStop(s: Bytes)
    requires SpaceBefore(s) == 0
    ensures TrimRight(s) == s && TrimRight(s) + [] == s
  {
  }

  lemma WhiteSnoc(cs: seq<Bytes>, c: Bytes)
    requires White(cs) && White([c])
    ensures White(cs + [c]) && Flat(cs + [c]) == Flat(cs) + c
  {
    hide SpaceAt, Flat;
    FlatSnoc(cs, c);
    assert [c][0] == c;
  }

  lemma FlatNothing()
    ensures Flat([]) == []
  {
  }

  lemma {:induction false} RightSpaces(s: Bytes) returns (back: seq<Bytes>)
    ensures White(back) && s == TrimRight(s) + Flat(back)
    decreases |s|
  {
    hide SpaceAt, SpaceBefore, TrimRight, Flat, White;
    if SpaceBefore(s) == 0 {
      back := [];
      FlatNothing();
      TrimRightStop(s);
      assert White(back) by { NoneWhite(); }
    } else {
      var n := |s| - SpaceBefore(s);
      var less := RightSpaces(s[..n]);
      TrimRightStep(s, n);
      LastSpace(s, n);
      WhiteSnoc(less, s[n..]);
      JoinRight(TrimRight(s[..n]), Flat(less), s[n..]);
      back := less + [s[n..]];
    }
  }

  lemma NoneWhite()
    ensures White([])
  {
  }

  /** Every text is its trimmed middle between white-space characters. */
  lemma TrimSpaceSplit(s: Bytes) returns (front: seq<Bytes>, back: seq<Bytes>)
    ensures White(front) && White(back) && Bare(TrimSpace(s))
    ensures s == Flat(front) + TrimSpace(s) + Flat(back)
  {
    hide SpaceAt, SpaceBefore, TrimLeft, TrimRight, Flat, White;
    front := LeftSpaces(s);
    back := RightSpaces(TrimLeft(s));
    TrimmedBare(s);
    JoinRight(Flat(front), TrimSpace(s), Flat(back));
  }

  /** Without the carriage returns and line feeds at the end. */
  function TrimEol(s: Bytes): Bytes {
    if s != [] && (s[|s| - 1] == LF || s[|s| - 1] == CR) then TrimEol(s[..|s| - 1]) else s
  }

  /** A line that ends an event. */
  predicate Blank(l: Line) {
    TrimSpace(TrimEol(l)) == []
  }

  const DATA: Bytes := [0x64, 0x61, 0x74, 0x61, 0x3A]

  predicate IsData(l: Line) {
    !Blank(l) && DATA <= TrimEol(l)
  }

  function Payload(l: Line): Bytes
    requires IsData(l)
  {
    TrimSpace(TrimEol(l)[|DATA|..])
  }

  /** The payloads of the data lines of an event, in order. */
  function DataLines(e: Event): seq<Bytes> {
    if e == [] then []
    else DataLines(e[..|e| - 1]) + (if IsData(e[|e| - 1]) then [Payload(e[|e| - 1])] else [])
  }

  lemma {:induction false} EolIsWhite(s: Bytes) returns (eol: seq<Bytes>)
    ensures White(eol) && s == TrimEol(s) + Flat(eol)
  {
    if s != [] && (s[|s| - 1] == LF || s[|s| - 1] == CR) {
      var n := |s| - 1;
      var less := EolIsWhite(s[..n]);
      eol := less + [s[n..]];
      FlatSnoc(less, s[n..]);
      assert s[n..] == [s[n]];
      assert s == s[..n] + s[n..];
    } else {
      eol := [];
    }
  }

  lemma BareEol(x: Bytes)
    requires SpaceBefore(x) == 0
    ensures TrimEol(x) == x
  {
    if x != [] {
      assert x[|x| - 1..] == [x[|x| - 1]];
    }
  }

  /** Only the white space of a text that ends with a bare one is taken by TrimEol. */
  lemma {:induction false} TrimEolKeeps(s: Bytes, x: Bytes, eol: Bytes)
    requires s == x + eol && TrimEol(x) == x && forall i :: 0 <= i < |eol| ==> eol[i] == LF || eol[i] == CR
    ensures TrimEol(s) == x
    decreases |eol|
  {
    if eol == [] {
      assert s == x;
    } else {
      assert s[..|s| - 1] == x + eol[..|eol| - 1];
      TrimEolKeeps(s[..|s| - 1], x, eol[..|eol| - 1]);
    }
  }

  /** A line is blank exactly if it consists of white-space characters. */
  lemma BlankIff(l: Line)
    ensures Blank(l) <==> exists cs :: White(cs) && l == Flat(cs)
  {
    hide SpaceAt, SpaceBefore, TrimSpace, TrimEol, Flat, Bare;
    var eol := EolIsWhite(l);
    if Blank(l) {
      var front, back := TrimSpaceSplit(TrimEol(l));
      AddNothing(Flat(front));
      FlatConcat(front, back);
      FlatConcat(front + back, eol);
      WhiteConcat(front, back);
      WhiteConcat(front + back, eol);
      assert White(front + back + eol) && l == Flat(front + back + eol);
    }
    if cs :| White(cs) && l == Flat(cs) {
      WhiteTrimmed(cs, eol, TrimEol(l));
    }
  }

  /** What is left of white space when line ends are taken off is white space. */
  lemma WhiteTrimmed(cs: seq<Bytes>, eol: seq<Bytes>, t: Bytes)
    requires White(cs) && White(eol) && Flat(cs) == t + Flat(eol)
    ensures TrimSpace(t) == []
  {
    var front, back := TrimSpaceSplit(t);
    hide SpaceAt, SpaceBefore, TrimSpace, Flat, Bare;
    var x := TrimSpace(t);
    FlatConcat(back, eol);
    JoinRight(Flat(front) + x, Flat(back), Flat(eol));
    TrimSpaceOf(front, x, back + eol);
    NoSpaces();
    FlatNothing();
    TrimSpaceOf(cs, [], []);
    assert Flat(cs) + [] + [] == Flat(cs);
  }

  lemma NoSpaces()
    ensures Bare([])
  {
  }

  /** The line "data: x" with its line end. */
  function DataLine(x: Bytes, eol: Bytes): Line {
    [0x64, 0x61, 0x74, 0x61, 0x3A, 0x20] + x + eol
  }

  predicate IsEol(eol: Bytes) {
    eol == [10] || eol == [13, 10]
  }

  lemma DataEol(x: Bytes, eol: Bytes)
    requires SpaceBefore(x) == 0 && IsEol(eol)
    ensures TrimEol(DataLine(x, eol)) == [0x64, 0x61, 0x74, 0x61, 0x3A, 0x20] + x
  {
    var t := [0x64, 0x61, 0x74, 0x61, 0x3A, 0x20] + x;
    if x != [] {
      assert x[|x| - 1..] == [x[|x| - 1]] && t[|t| - 1] == x[|x| - 1];
    }
    TrimEolKeeps(t + eol, t, eol);
  }

  lemma {:induction false} TrimEolPrefix(l: Line)
    ensures |TrimEol(l)| <= |l| && TrimEol(l) == l[..|TrimEol(l)|]
    ensures forall i :: |TrimEol(l)| <= i < |l| ==> l[i] == LF || l[i] == CR
  {
    if l != [] && (l[|l| - 1] == LF || l[|l| - 1] == CR) {
      TrimEolPrefix(l[..|l| - 1]);
      forall i | |TrimEol(l)| <= i < |l| ensures l[i] == LF || l[i] == CR {
        assert i < |l| - 1 ==> l[..|l| - 1][i] == l[i];
      }
    }
  }

  /** A data line is one that begins with "data:", and no other. */
  lemma DataIff(l: Line)
    ensures IsData(l) <==> |l| >= 5 && l[..5] == [0x64, 0x61, 0x74, 0x61, 0x3A]
  {
    var t := TrimEol(l);
    TrimEolPrefix(l);
    if |l| >= 5 && l[..5] == [0x64, 0x61, 0x74, 0x61, 0x3A] {
      assert l[4] == l[..5][4] == 0x3A;
      assert |t| >= 5 && t[..5] == l[..5];
      LetterNotBlank(t);
    }
    hide TrimSpace, TrimEol;
    if DATA <= t {
      assert t[..5] == DATA && l[..5] == t[..5];
    }
  }

  /** A text that begins with a letter is not white space. */
  lemma LetterNotBlank(t: Bytes)
    requires t != [] && t[0] == 0x64
    ensures TrimSpace(t) != []
  {
    var front, back := TrimSpaceSplit(t);
  }

  /** One space in front of a bare text is trimmed. */
  lemma OneSpace(x: Bytes)
    requires Bare(x)
    ensures TrimSpace([0x20] + x) == x
  {
    hide SpaceAt, SpaceBefore, TrimSpace, Flat, Bare, White;
    FlatOne([0x20]);
    FlatNothing();
    SpaceIsWhite();
    NoneWhite();
    TrimSpaceOf([[0x20]], x, []);
    AddNothing([0x20] + x);
  }

  lemma AddNothing(s: Bytes)
    ensures s + [] == s
  {
  }

  lemma FlatOne(c: Bytes)
    ensures Flat([c]) == c
  {
    FlatNothing();
    AddNothing(c);
  }

  lemma SpaceIsWhite()
    ensures White([[0x20]])
  {
    hide IsWideSpace;
  }

  /** Its payload is x, with either line end. */
  lemma PayloadOf(x: Bytes, eol: Bytes)
    requires Bare(x) && IsEol(eol)
    ensures IsData(DataLine(x, eol)) && !Blank(DataLine(x, eol)) && Payload(DataLine(x, eol)) == x
  {
    DataEol(x, eol);
    var t := [0x64, 0x61, 0x74, 0x61, 0x3A, 0x20] + x;
    assert t[|DATA|..] == [0x20] + x && DATA <= t;
    LetterNotBlank(t);
    OneSpace(x);
    hide SpaceAt, SpaceBefore, TrimSpace, TrimEol, Bare, DataLine;
  }

  lemma DataLinesTwo(l: Line, b: Line)
    requires IsData(l) && !IsData(b)
    ensures DataLines([l, b]) == [Payload(l)]
  {
    hide IsData, Payload;
    assert [l, b][..1] == [l] && [l][..0] == [];
    assert DataLines([l]) == [] + [Payload(l)] && DataLines([l, b]) == DataLines([l]) + [];
  }

  /** The event of that line and a blank one has x as its only data line. */
  lemma DataLinesOf(x: Bytes, eol: Bytes, blank: Line)
    requires Bare(x) && IsEol(eol) && Blank(blank)
    ensures DataLines([DataLine(x, eol), blank]) == [x]
  {
    PayloadOf(x, eol);
    BlankNoData(blank);
    hide IsData, Payload, Bare, Blank, DataLines, DataLine;
    DataLinesTwo(DataLine(x, eol), blank);
  }

  lemma BlankNoData(l: Line)
    requires Blank(l)
    ensures !IsData(l)
  {
  }

  /** The payloads of all events, in order. */
  function AllData(es: seq<Event>): seq<Bytes> {
    if es == [] then [] else DataLines(es[0]) + AllData(es[1..])
  }

  // --- Lines ---

  /** The length of the first line of s, its line feed included. */
  function LineLength(s: Bytes): (n: nat)
    ensures n <= |s|
    ensures s != [] ==> n > 0
    ensures forall i :: 0 <= i < n - 1 ==> s[i] != LF
    ensures n < |s| ==> s[n - 1] == LF
  {
    if s == [] then 0 else if s[0] == LF then 1 else 1 + LineLength(s[1..])
  }

  function Lines(s: Bytes): seq<Line> {
    if s == [] then [] else [s[..LineLength(s)]] + Lines(s[LineLength(s)..])
  }

  /** What ReadBytes may return: nonempty, with no line feed before its last byte. */
  predicate IsLine(l: Line) {
    l != [] && forall i :: 0 <= i < |l| - 1 ==> l[i] != LF
  }

  predicate Ended(l: Line) {
    IsLine(l) && l[|l| - 1] == LF
  }

  /** Lines that can follow one another in a stream: only the last may lack its line feed. */
  predicate Stackable(ls: seq<Line>) {
    && (forall i :: 0 <= i < |ls| ==> IsLine(ls[i]))
    && (forall i :: 0 <= i < |ls| - 1 ==> Ended(ls[i]))
  }

  lemma {:induction false} LineLengthOf(l: Line, rest: Bytes)
    requires IsLine(l) && (rest != [] ==> Ended(l))
    ensures LineLength(l + rest) == |l|
  {
    var s := l + rest;
    if l[0] == LF {
    } else if |l| == 1 {
      assert s[1..] == [];
    } else {
      assert s[1..] == l[1..] + rest;
      LineLengthOf(l[1..], rest);
    }
  }

  lemma {:induction false} LinesConcat(s: Bytes)
    ensures Flat(Lines(s)) == s
    ensures Stackable(Lines(s))
  {
    if s != [] {
      var n := LineLength(s);
      FirstLineOf(s, n);
      hide Lines, Flat, Stackable, IsLine, Ended;
      LinesConcat(s[n..]);
      StackableCons(s[..n], Lines(s[n..]));
      FlatCons(s[..n], Lines(s[n..]));
    }
  }

  lemma FirstLineOf(s: Bytes, n: nat)
    requires s != [] && n == LineLength(s)
    ensures Lines(s) == [s[..n]] + Lines(s[n..]) && s == s[..n] + s[n..]
    ensures IsLine(s[..n]) && (Lines(s[n..]) != [] ==> Ended(s[..n]))
  {
    assert s[n..] == [] ==> Lines(s[n..]) == [];
    hide LineLength;
  }

  lemma FlatCons(l: Bytes, ls: seq<Bytes>)
    ensures Flat([l] + ls) == l + Flat(ls)
  {
    assert ([l] + ls)[1..] == ls;
  }

  lemma StackableCons(l: Line, ls: seq<Line>)
    requires IsLine(l) && Stackable(ls) && (ls != [] ==> Ended(l))
    ensures Stackable([l] + ls)
  {
    var all := [l] + ls;
    forall i | 0 <= i < |all| ensures IsLine(all[i]) && (i < |all| - 1 ==> Ended(all[i])) {
      if i > 0 {
        assert all[i] == ls[i - 1];
      }
    }
  }

  /** Lines that were written one after the other are read back as they were. */
  lemma {:induction false} LinesOfFlat(ls: seq<Line>)
    requires Stackable(ls)
    ensures Lines(Flat(ls)) == ls
  {
    if ls != [] {
      var rest := Flat(ls[1..]);
      if rest != [] {
        assert |ls| > 1;
      }
      assert IsLine(ls[0]);
      LineLengthOf(ls[0], rest);
      assert Flat(ls)[..|ls[0]|] == ls[0] && Flat(ls)[|ls[0]|..] == rest;
      forall i | 0 <= i < |ls| - 1 ensures IsLine(ls[1..][i]) && (i < |ls| - 2 ==> Ended(ls[1..][i])) {
        assert ls[1..][i] == ls[i + 1];
      }
      LinesOfFlat(ls[1..]);
    }
  }

  lemma {:induction false} FlatConcat(a: seq<Bytes>, b: seq<Bytes>)
    ensures Flat(a + b) == Flat(a) + Flat(b)
  {
    if a == [] {
      assert a + b == b;
    } else {
      assert (a + b)[0] == a[0] && (a + b)[1..] == a[1..] + b;
      FlatConcat(a[1..], b);
      assert a[0] + (Flat(a[1..]) + Flat(b)) == (a[0] + Flat(a[1..])) + Flat(b);
    }
  }

  lemma {:induction false} FlatAllConcat(a: seq<Event>, b: seq<Event>)
    ensures FlatAll(a + b) == FlatAll(a) + FlatAll(b)
  {
    if a == [] {
      assert a + b == b;
    } else {
      assert (a + b)[0] == a[0] && (a + b)[1..] == a[1..] + b;
      FlatAllConcat(a[1..], b);
      assert Flat(a[0]) + (FlatAll(a[1..]) + FlatAll(b)) == (Flat(a[0]) + FlatAll(a[1..])) + FlatAll(b);
    }
  }

  // --- Events ---

  /** Groups lines into events, the lines of `open` being those of an event still open. */
  function Group(open: Event, ls: seq<Line>): seq<Event>
    decreases |ls|
  {
    if ls == [] then (if open == [] then [] else [open])
    else if Blank(ls[0]) then [open + [ls[0]]] + Group([], ls[1..])
    else Group(open + [ls[0]], ls[1..])
  }

  /** The events of a byte stream. */
  function Split(s: Bytes): seq<Event> {
    Group([], Lines(s))
  }

  lemma FlatSnoc(ls: seq<Bytes>, l: Bytes)
    ensures Flat(ls + [l]) == Flat(ls) + l
  {
    FlatConcat(ls, [l]);
    assert Flat([l]) == l + Flat([l][1..]) == l;
  }

  lemma FlatAllCons(e: Event, es: seq<Event>)
    ensures FlatAll([e] + es) == Flat(e) + FlatAll(es)
  {
    assert ([e] + es)[1..] == es;
  }

  lemma {:induction false} GroupConcat(open: Event, ls: seq<Line>)
    ensures FlatAll(Group(open, ls)) == Flat(open) + Flat(ls)
    decreases |ls|
  {
    hide Blank;
    if ls == [] {
      if open != [] {
        FlatAllCons(open, []);
        assert [open] + [] == [open];
      }
    } else {
      FlatSnoc(open, ls[0]);
      assert Flat(open) + ls[0] + Flat(ls[1..]) == Flat(open) + (ls[0] + Flat(ls[1..]));
      if Blank(ls[0]) {
        GroupConcat([], ls[1..]);
        FlatAllCons(open + [ls[0]], Group([], ls[1..]));
      } else {
        GroupConcat(open + [ls[0]], ls[1..]);
      }
    }
  }

  /** Splitting loses nothing: the events of a stream are the stream. */
  lemma SplitConcat(s: Bytes)
    ensures FlatAll(Split(s)) == s
  {
    GroupConcat([], Lines(s));
    LinesConcat(s);
  }

  /** The lines of an event: nothing but its last line ends it. */
  predicate Shape(e: Event) {
    e != [] && Stackable(e) && forall i :: 0 <= i < |e| - 1 ==> !Blank(e[i])
  }

  /** An event whose blank line has arrived. */
  predicate Terminated(e: Event) {
    Shape(e) && Blank(e[|e| - 1]) && Ended(e[|e| - 1])
  }

  /** Events that can follow one another in a stream: only the last may be unterminated. */
  predicate Framed(es: seq<Event>) {
    && (forall i :: 0 <= i < |es| ==> Shape(es[i]))
    && (forall i :: 0 <= i < |es| - 1 ==> Terminated(es[i]))
  }

  lemma {:induction false} GroupFramed(open: Event, ls: seq<Line>)
    requires Stackable(open + ls)
    requires forall i :: 0 <= i < |open| ==> !Blank(open[i])
    ensures Framed(Group(open, ls))
    decreases |ls|
  {
    hide Blank;
    if ls == [] {
      assert open + ls == open;
    } else {
      var e := open + [ls[0]];
      assert e + ls[1..] == open + ls;
      forall i | 0 <= i < |e| ensures IsLine(e[i]) && (i < |e| - 1 || ls[1..] != [] ==> Ended(e[i])) {
        assert e[i] == (open + ls)[i];
      }
      if Blank(ls[0]) {
        assert Stackable([] + ls[1..]) by {
          forall i | 0 <= i < |ls| - 1 ensures ls[1..][i] == (open + ls)[|open| + 1 + i] {}
        }
        GroupFramed([], ls[1..]);
        var es := Group([], ls[1..]);
        assert ls[1..] == [] ==> es == [];
        assert Shape(e) && (es != [] ==> Terminated(e));
        FramedCons(e, es);
      } else {
        GroupFramed(e, ls[1..]);
      }
    }
  }

  lemma FramedCons(e: Event, es: seq<Event>)
    requires Shape(e) && Framed(es) && (es != [] ==> Terminated(e))
    ensures Framed([e] + es)
  {
    hide Blank;
    var all := [e] + es;
    forall i | 0 <= i < |all| ensures Shape(all[i]) && (i < |all| - 1 ==> Terminated(all[i])) {
      if i > 0 {
        assert all[i] == es[i - 1];
      }
    }
  }

  lemma FramedTail(es: seq<Event>)
    requires Framed(es) && es != []
    ensures Shape(es[0]) && Framed(es[1..]) && (es[1..] != [] ==> Terminated(es[0]))
  {
    hide Blank;
    forall i | 0 <= i < |es| - 1 ensures es[1..][i] == es[i + 1] {}
  }

  /** Every byte stream splits into framed events. */
  lemma SplitFramed(s: Bytes)
    ensures Framed(Split(s))
  {
    hide Blank;
    LinesConcat(s);
    assert [] + Lines(s) == Lines(s);
    GroupFramed([], Lines(s));
  }

  /** The lines of a sequence of events. */
  function Join(es: seq<Event>): seq<Line> {
    if es == [] then [] else es[0] + Join(es[1..])
  }

  lemma {:induction false} JoinFlat(es: seq<Event>)
    ensures Flat(Join(es)) == FlatAll(es)
  {
    if es != [] {
      FlatConcat(es[0], Join(es[1..]));
      JoinFlat(es[1..]);
    }
  }

  lemma {:induction false} JoinStackable(es: seq<Event>)
    requires Framed(es)
    ensures Stackable(Join(es))
  {
    hide Blank;
    if es != [] {
      FramedTail(es);
      JoinStackable(es[1..]);
      var a, b := es[0], Join(es[1..]);
      if b != [] {
        assert es[1..] != [];
      }
      forall i | 0 <= i < |a + b| ensures IsLine((a + b)[i]) && (i < |a + b| - 1 ==> Ended((a + b)[i])) {
        if i < |a| {
          assert (a + b)[i] == a[i];
        } else {
          assert (a + b)[i] == b[i - |a|];
        }
      }
    }
  }

  lemma GroupLast(open: Event, l: Line, ls: seq<Line>)
    requires Blank(l) || ls == []
    ensures Group(open, [l] + ls) == [open + [l]] + Group([], ls)
  {
    hide Blank;
    assert ([l] + ls)[0] == l && ([l] + ls)[1..] == ls;
    if !Blank(l) {
      assert Group(open + [l], []) == [open + [l]];
      assert [open + [l]] + [] == [open + [l]];
    }
  }

  /** The lines of an event are grouped up to its last line. */
  lemma {:induction false} GroupEvent(open: Event, e: Event, ls: seq<Line>)
    requires e != [] && forall i :: 0 <= i < |e| - 1 ==> !Blank(e[i])
    requires Blank(e[|e| - 1]) || ls == []
    ensures Group(open, e + ls) == [open + e] + Group([], ls)
    decreases |e|
  {
    hide Blank;
    if |e| == 1 {
      assert e == [e[0]];
      GroupLast(open, e[0], ls);
    } else {
      assert (e + ls)[0] == e[0] && (e + ls)[1..] == e[1..] + ls;
      assert !Blank(e[0]);
      GroupEvent(open + [e[0]], e[1..], ls);
      assert open + [e[0]] + e[1..] == open + e;
    }
  }

  lemma GroupShaped(e: Event, ls: seq<Line>)
    requires Shape(e) && (Terminated(e) || ls == [])
    ensures Group([], e + ls) == [e] + Group([], ls)
  {
    hide Blank, Stackable, Group;
    GroupEvent([], e, ls);
    assert [] + e == e;
  }

  lemma {:induction false} GroupJoin(es: seq<Event>)
    requires Framed(es)
    ensures Group([], Join(es)) == es
  {
    hide Blank, Framed, Shape, Terminated, Group;
    if es == [] {
      assert Group([], []) == [] by { GroupNothing(); }
    } else {
      FramedTail(es);
      GroupJoin(es[1..]);
      GroupShaped(es[0], Join(es[1..]));
      assert es == [es[0]] + es[1..];
    }
  }

  lemma GroupNothing()
    ensures Group([], []) == []
  {
  }

  /** Events written one after the other are split back into the same events. */
  lemma Resplit(es: seq<Event>)
    requires Framed(es)
    ensures Split(FlatAll(es)) == es
  {
    hide Blank;
    JoinFlat(es);
    JoinStackable(es);
    LinesOfFlat(Join(es));
    GroupJoin(es);
  }

  // --- A stream as a provider writes it ---

  /** For each text a line "data: " with it, and an empty line. */
  function Written(xs: seq<Bytes>): Bytes {
    if xs == [] then [] else DataLine(xs[0], [10]) + [10] + Written(xs[1..])
  }

  /** A text that fits on a data line: no white space at its ends, and no line feed. */
  predicate OneLine(x: Bytes) {
    Bare(x) && forall i :: 0 <= i < |x| ==> x[i] != 10
  }

  function EventsOf(xs: seq<Bytes>): seq<Event> {
    if xs == [] then [] else [[DataLine(xs[0], [10]), [10]]] + EventsOf(xs[1..])
  }

  lemma EmptyLine()
    ensures Blank([10]) && Ended([10])
  {
    assert TrimEol([10]) == [];
  }

  lemma FlatTwo(l: Line, b: Line)
    ensures Flat([l, b]) == l + b
  {
    assert [l, b][1..] == [b] && [b][1..] == [];
    assert b + Flat([]) == b;
  }

  lemma DataLineEnded(x: Bytes)
    requires OneLine(x)
    ensures Ended(DataLine(x, [10]))
  {
    hide Bare;
  }

  lemma EventOf(x: Bytes)
    requires OneLine(x)
    ensures var e := [DataLine(x, [10]), [10]];
      Terminated(e) && DataLines(e) == [x] && Flat(e) == DataLine(x, [10]) + [10]
  {
    hide Blank, IsData, Bare, DataLines, Flat, DataLine, Ended;
    PayloadOf(x, [10]);
    EmptyLine();
    DataLineEnded(x);
    DataLinesOf(x, [10], [10]);
    FlatTwo(DataLine(x, [10]), [10]);
    EndedIsLine(DataLine(x, [10]));
    EndedIsLine([10]);
  }

  lemma EndedIsLine(l: Line)
    requires Ended(l)
    ensures IsLine(l)
  {
  }

  lemma {:induction false} EventsFramed(xs: seq<Bytes>)
    requires forall i :: 0 <= i < |xs| ==> OneLine(xs[i])
    ensures Framed(EventsOf(xs)) && FlatAll(EventsOf(xs)) == Written(xs) && AllData(EventsOf(xs)) == xs
  {
    hide OneLine, Terminated, DataLines, Flat, DataLine;
    if xs == [] {
    } else {
      var e := [DataLine(xs[0], [10]), [10]];
      var es := EventsOf(xs[1..]);
      EventOf(xs[0]);
      EventsFramed(xs[1..]);
      TerminatedShape(e);
      FramedCons(e, es);
      assert ([e] + es)[0] == e && ([e] + es)[1..] == es;
      assert [xs[0]] + xs[1..] == xs;
    }
  }

  lemma TerminatedShape(e: Event)
    requires Terminated(e)
    ensures Shape(e)
  {
  }

  /** What a provider writes on its data lines is what is observed, in order. */
  lemma WrittenIsRead(xs: seq<Bytes>)
    requires forall i :: 0 <= i < |xs| ==> OneLine(xs[i])
    ensures Split(Written(xs)) == EventsOf(xs) && AllData(Split(Written(xs))) == xs
  {
    hide OneLine, Framed, Split, AllData;
    EventsFramed(xs);
    Resplit(EventsOf(xs));
  }
}
