/** Printing and parsing guacamole frames. */
module FrameLaws {
  import opened Utf8
  import opened Decimal
  import opened Frames

  // ----- Printing -----

  /** `length.value` and a terminator; the length counts characters, as the protocol has it. */
  function PrintElement(e: Element, terminator: Byte): seq<Byte> {
    Itoa(|Runes(e)|) + [DOT] + e + [terminator]
  }

  function PrintAll(es: seq<Element>): seq<Byte> {
    if es == [] then []
    else if |es| == 1 then PrintElement(es[0], SEMICOLON)
    else PrintElement(es[0], COMMA) + PrintAll(es[1..])
  }

  function Print(f: Frame): seq<Byte> { PrintAll([f.opcode] + f.args) }

  predicate CleanRunes(rs: seq<Rune>) { DOT !in rs && COMMA !in rs && SEMICOLON !in rs }

  /** Valid UTF-8 without '.', ',' and ';'. */
  predicate Clean(e: Element) { Valid(e) && CleanRunes(Runes(e)) }

  predicate CleanFrame(f: Frame) { Clean(f.opcode) && forall i :: 0 <= i < |f.args| ==> Clean(f.args[i]) }

  // ----- What the parser produces is clean -----

  lemma {:induction false} SegmentsAreClean(rs: seq<Rune>)
    ensures forall seg :: seg in Segments(rs) ==> COMMA !in seg && SEMICOLON !in seg
  {
    if rs != [] { SegmentsAreClean(rs[1..]); }
  }

  lemma {:induction false} AfterDotIsClean(seg: seq<Rune>)
    requires COMMA !in seg && SEMICOLON !in seg
    ensures CleanRunes(AfterDot(seg))
  {
    if DOT in seg { AfterDotIsClean(seg[1..]); }
  }

  lemma EncodedIsClean(rs: seq<Rune>)
    requires CleanRunes(rs)
    ensures Clean(Encode(rs)) && Runes(Encode(rs)) == rs
  {
    RunesOfEncoded(rs, []);
    assert Encode(rs) + [] == Encode(rs) && rs + [] == rs;
    ReencodesIffValid(Encode(rs));
  }

  lemma ElementsAreClean(rs: seq<Rune>, i: nat)
    requires i < |Elements(rs)|
    ensures Clean(Elements(rs)[i])
  {
    SegmentsAreClean(rs);
    var seg := Segments(rs)[i];
    assert seg in Segments(rs);
    AfterDotIsClean(seg);
    EncodedIsClean(AfterDot(seg));
  }

  lemma {:induction false} AssembledIsClean(es: seq<Element>)
    requires forall i :: 0 <= i < |es| ==> Clean(es[i])
    ensures CleanFrame(Assemble(es))
  {
    if es != [] && es[0] == [] { AssembledIsClean(es[1..]); }
  }

  /** Whatever bytes come in, the parsed opcode and arguments are valid UTF-8 without '.', ',' and ';'. */
  lemma ParsedIsClean(raw: seq<Byte>)
    ensures CleanFrame(Parse(raw))
  {
    var es := Elements(Runes(raw));
    forall i | 0 <= i < |es| ensures Clean(es[i]) { ElementsAreClean(Runes(raw), i); }
    AssembledIsClean(es);
  }

  // ----- Round trip -----

  lemma {:induction false} SegmentClosed(seg: seq<Rune>, r: Rune, rest: seq<Rune>)
    requires COMMA !in seg && SEMICOLON !in seg && Separator(r)
    ensures Segments(seg + [r] + rest) == [seg] + Segments(rest)
  {
    if seg == [] {
      assert (seg + [r] + rest)[1..] == rest;
    } else {
      assert (seg + [r] + rest)[1..] == seg[1..] + [r] + rest;
      SegmentClosed(seg[1..], r, rest);
      assert [seg[0]] + seg[1..] == seg;
    }
  }

  lemma {:induction false} LengthDropped(digits: seq<Rune>, value: seq<Rune>)
    requires DOT !in digits && DOT !in value
    ensures AfterDot(digits + [DOT] + value) == value
  {
    var seg := digits + [DOT] + value;
    assert seg[|digits|] == DOT;
    if digits == [] {
      assert seg[1..] == value;
    } else {
      assert seg[1..] == digits[1..] + [DOT] + value;
      LengthDropped(digits[1..], value);
    }
  }

  lemma {:induction false} AsciiRunes(s: seq<Byte>)
    requires forall i :: 0 <= i < |s| ==> s[i] < 0x80
    ensures Valid(s) && Runes(s) == s
  {
    if s != [] { AsciiRunes(s[1..]); }
  }

  lemma {:induction false} RunesConcat(a: seq<Byte>, b: seq<Byte>)
    requires Valid(a)
    ensures Runes(a + b) == Runes(a) + Runes(b)
  {
    ReencodesIffValid(a);
    RunesOfEncoded(Runes(a), b);
  }

  lemma Regroup<T>(a: seq<T>, b: seq<T>, c: seq<T>, d: seq<T>, e: seq<T>)
    ensures a + b + c + d + e == a + (b + (c + (d + e)))
  {
    assert c + d + e == c + (d + e);
    assert b + (c + (d + e)) == b + c + (d + e);
  }

  lemma PrintedRunes(e: Element, terminator: Byte, rest: seq<Byte>)
    requires Clean(e) && Separator(terminator)
    ensures Runes(PrintElement(e, terminator) + rest)
            == Itoa(|Runes(e)|) + [DOT] + Runes(e) + [terminator] + Runes(rest)
  {
    var length := Itoa(|Runes(e)|);
    AsciiRunes(length);
    AsciiRunes([DOT]);
    AsciiRunes([terminator]);
    hide Runes, Valid, Itoa, CleanRunes;
    Regroup(length, [DOT], e, [terminator], rest);
    RunesConcat(length, [DOT] + (e + ([terminator] + rest)));
    RunesConcat([DOT], e + ([terminator] + rest));
    RunesConcat(e, [terminator] + rest);
    RunesConcat([terminator], rest);
    Regroup<Rune>(length, [DOT], Runes(e), [terminator], Runes(rest));
  }

  lemma ElementRoundTrip(e: Element, terminator: Byte, rest: seq<Byte>)
    requires Clean(e) && Separator(terminator)
    ensures Elements(Runes(PrintElement(e, terminator) + rest)) == [e] + Elements(Runes(rest))
  {
    var digits: seq<Rune> := Itoa(|Runes(e)|);
    ReencodesIffValid(e);
    assert DOT !in digits && COMMA !in digits && SEMICOLON !in digits;
    PrintedRunes(e, terminator, rest);
    var seg := digits + [DOT] + Runes(e);
    SegmentClosed(seg, terminator, Runes(rest));
    LengthDropped(digits, Runes(e));
    FirstElement(seg, Runes(rest));
    hide Segments, AfterDot, Runes, Encode, PrintElement, Itoa, Valid, Values;
  }

  lemma FirstElement(seg: seq<Rune>, rs: seq<Rune>)
    ensures var ss := [seg] + Segments(rs); Values(ss[..|ss| - 1]) == [Encode(AfterDot(seg))] + Elements(rs)
  {
    hide Segments, AfterDot, Encode;
    var ss := Segments(rs);
    assert ([seg] + ss)[..|ss|] == [seg] + ss[..|ss| - 1];
    ValuesConcat([seg], ss[..|ss| - 1]);
    assert Values([seg]) == [Encode(AfterDot(seg))];
  }

  lemma {:induction false} PrintedElements(es: seq<Element>)
    requires forall i :: 0 <= i < |es| ==> Clean(es[i])
    ensures Elements(Runes(PrintAll(es))) == es
  {
    if es == [] {
    } else if |es| == 1 {
      ElementRoundTrip(es[0], SEMICOLON, []);
      assert PrintElement(es[0], SEMICOLON) + [] == PrintElement(es[0], SEMICOLON);
      assert es == [es[0]] + [];
    } else {
      PrintedElements(es[1..]);
      ElementRoundTrip(es[0], COMMA, PrintAll(es[1..]));
      assert es == [es[0]] + es[1..];
    }
  }

  /** Parsing a printed frame gives it back exactly when opcode and arguments are clean and the opcode is not
      empty (or there is nothing at all). */
  lemma RoundTripIff(f: Frame)
    ensures Parse(Print(f)) == f <==> CleanFrame(f) && (f.opcode != [] || f.args == [])
  {
    ParsedIsClean(Print(f));
    if CleanFrame(f) {
      var es := [f.opcode] + f.args;
      assert forall i :: 0 <= i < |es| ==> Clean(es[i]);
      PrintedElements(es);
      assert es[0] == f.opcode && es[1..] == f.args;
      assert f.opcode == [] ==> Assemble(es) == Assemble(f.args);
      assert Assemble([]) == Frame([], []);
    }
  }

  // ----- Two frames in one string -----

  lemma {:induction false} EndsInAscii(bs: seq<Byte>, b: Byte)
    requires b < 0x80
    ensures var rs := Runes(bs + [b]); rs != [] && rs[|rs| - 1] == b
    decreases |bs|
  {
    if bs == [] {
      assert [b][1..] == [];
    } else {
      AsciiStopsDecoding(bs, b, []);
      var size := DecodeRune(bs + [b]).1;
      assert (bs + [b])[size..] == bs[size..] + [b];
      EndsInAscii(bs[size..], b);
    }
  }

  lemma PrependConcat(r: Rune, ss: seq<seq<Rune>>, tt: seq<seq<Rune>>)
    requires |ss| >= 1
    ensures Prepend(r, ss + tt) == Prepend(r, ss) + tt
  {
  }

  lemma {:induction false} SegmentsConcat(rs: seq<Rune>, ss: seq<Rune>)
    requires rs != [] && Separator(rs[|rs| - 1])
    ensures |Segments(rs)| >= 2
    ensures Segments(rs + ss) == Segments(rs)[..|Segments(rs)| - 1] + Segments(ss)
  {
    assert (rs + ss)[1..] == rs[1..] + ss;
    if |rs| == 1 {
      assert rs[1..] + ss == ss && Segments(rs) == [[]] + Segments([]);
    } else {
      var tt := Segments(rs[1..]);
      SegmentsConcat(rs[1..], ss);
      PrependConcat(rs[0], tt[..|tt| - 1], Segments(ss));
      PrependConcat(rs[0], tt[..|tt| - 1], [tt[|tt| - 1]]);
      assert tt == tt[..|tt| - 1] + [tt[|tt| - 1]];
      hide Prepend;
    }
  }

  lemma {:induction false} AssembleConcat(es: seq<Element>, fs: seq<Element>)
    requires Assemble(es).opcode != []
    ensures Assemble(es + fs) == Assemble(es).(args := Assemble(es).args + fs)
  {
    assert (es + fs)[1..] == es[1..] + fs;
    if es[0] == [] { AssembleConcat(es[1..], fs); }
  }

  lemma ElementsConcat(rs: seq<Rune>, ss: seq<Rune>)
    requires rs != [] && Separator(rs[|rs| - 1])
    ensures Elements(rs + ss) == Elements(rs) + Elements(ss)
  {
    SegmentsConcat(rs, ss);
    hide Segments;
    var a, b := Segments(rs)[..|Segments(rs)| - 1], Segments(ss);
    assert (a + b)[..|a| + |b| - 1] == a + b[..|b| - 1];
    ValuesConcat(a, b[..|b| - 1]);
  }

  /** Bytes that follow a complete frame with an opcode, valid or not, only add arguments: one for each element
      they carry, the second opcode included. */
  lemma FollowingFrameBecomesArguments(first: seq<Byte>, terminator: Byte, second: seq<Byte>)
    requires Separator(terminator) && Parse(first + [terminator]).opcode != []
    ensures Parse(first + [terminator] + second)
            == Parse(first + [terminator]).(args := Parse(first + [terminator]).args + Elements(Runes(second)))
  {
    hide Runes, Elements, Assemble;
    var rs := Runes(first + [terminator]);
    RunesSplitAfterAscii(first, terminator, second);
    EndsInAscii(first, terminator);
    ElementsConcat(rs, Runes(second));
    AssembleConcat(Elements(rs), Elements(Runes(second)));
  }

  /** For two printed frames: the arguments become those of the first, then opcode and arguments of the second. */
  lemma TwoPrintedFrames(f: Frame, g: Frame)
    requires CleanFrame(f) && CleanFrame(g) && f.opcode != []
    ensures Parse(Print(f) + Print(g)) == Frame(f.opcode, f.args + [g.opcode] + g.args)
  {
    var body := PrintEndsInSemicolon([f.opcode] + f.args);
    RoundTripIff(f);
    ElementsOfPrinted(g);
    assert Print(f) == body + [SEMICOLON];
    var second := Print(g);
    hide *;
    FollowingFrameBecomesArguments(body, SEMICOLON, second);
    assert f.args + ([g.opcode] + g.args) == f.args + [g.opcode] + g.args;
  }

  lemma ElementsOfPrinted(g: Frame)
    requires CleanFrame(g)
    ensures Elements(Runes(Print(g))) == [g.opcode] + g.args
  {
    hide Clean;
    PrintedElements([g.opcode] + g.args);
  }

  lemma {:induction false} PrintEndsInSemicolon(es: seq<Element>) returns (body: seq<Byte>)
    requires es != []
    ensures PrintAll(es) == body + [SEMICOLON]
  {
    if |es| == 1 {
      body := Itoa(|Runes(es[0])|) + [DOT] + es[0];
    } else {
      var rest := PrintEndsInSemicolon(es[1..]);
      body := PrintElement(es[0], COMMA) + rest;
    }
  }
}
