/** Guacamole frames: the parser of svcs/guacamole/proto.go, and the protocol's printer it has to undo. */
module Frames {
  import opened Utf8
  import opened Decimal

  const DOT: Rune := 46
  const COMMA: Rune := 44
  const SEMICOLON: Rune := 59

  type Element = seq<Byte>

  datatype Frame = Frame(opcode: Element, args: seq<Element>)

  predicate Separator(r: Rune) { r == COMMA || r == SEMICOLON }

  // ----- What a byte string means -----

  /** The stretches between separators; the last one is not closed by a separator. */
  function Segments(rs: seq<Rune>): (ss: seq<seq<Rune>>)
    ensures |ss| >= 1
  {
    if rs == [] then [[]] else Prepend(rs[0], Segments(rs[1..]))
  }

  function Prepend(r: Rune, ss: seq<seq<Rune>>): (tt: seq<seq<Rune>>)
    requires |ss| >= 1
    ensures |tt| == if Separator(r) then |ss| + 1 else |ss|
  {
    if Separator(r) then [[]] + ss else [[r] + ss[0]] + ss[1..]
  }

  /** A segment without the length in front of it. */
  function AfterDot(seg: seq<Rune>): seq<Rune> {
    if DOT in seg then AfterDot(seg[1..]) else seg
  }

  function Values(ss: seq<seq<Rune>>): (es: seq<Element>)
    ensures |es| == |ss|
    ensures forall i :: 0 <= i < |ss| ==> es[i] == Encode(AfterDot(ss[i]))
  {
    if ss == [] then [] else [Encode(AfterDot(ss[0]))] + Values(ss[1..])
  }

  /** The elements a byte string carries: one for each separator. */
  function Elements(rs: seq<Rune>): seq<Element> {
    var ss := Segments(rs);
    Values(ss[..|ss| - 1])
  }

  /** The first element that is not empty is the opcode, everything after it an argument. */
  function Assemble(es: seq<Element>): (f: Frame)
    ensures f.opcode == [] ==> f.args == []
  {
    if es == [] then Frame([], [])
    else if es[0] == [] then Assemble(es[1..])
    else Frame(es[0], es[1..])
  }

  function Parse(raw: seq<Byte>): Frame { Assemble(Elements(Runes(raw))) }

  // ----- The loop -----

  // What one more rune at the end does to the segments.
  function Append(ss: seq<seq<Rune>>, r: Rune): (tt: seq<seq<Rune>>)
    requires |ss| >= 1
    ensures |tt| == if Separator(r) then |ss| + 1 else |ss|
  {
    var n := |ss| - 1;
    if Separator(r) then ss + [[]] else ss[..n] + [ss[n] + [r]]
  }

  lemma PrependAppend(x: Rune, ss: seq<seq<Rune>>, r: Rune)
    requires |ss| >= 1
    ensures Prepend(x, Append(ss, r)) == Append(Prepend(x, ss), r)
  {
    if !Separator(x) && !Separator(r) && |ss| == 1 {
      assert [x] + (ss[0] + [r]) == [x] + ss[0] + [r];
    }
  }

  lemma {:induction false} SegmentsSnoc(rs: seq<Rune>, r: Rune)
    ensures Segments(rs + [r]) == Append(Segments(rs), r)
  {
    if rs == [] {
      var none: seq<seq<Rune>> := [[]];
      assert rs + [r] == [r] && [r][1..] == [] && Segments([r]) == Prepend(r, none);
      assert [r] + none[0] == [r] == none[0] + [r] && none[1..] == none[..0];
    } else {
      SegmentsSnoc(rs[1..], r);
      assert (rs + [r])[1..] == rs[1..] + [r];
      PrependAppend(rs[0], Segments(rs[1..]), r);
    }
  }

  lemma {:induction false} AfterDotSnoc(seg: seq<Rune>, r: Rune)
    ensures AfterDot(seg + [r]) == if r == DOT then [] else AfterDot(seg) + [r]
  {
    if seg == [] {
      assert [] + [r] == [r] && [r][1..] == [];
    } else {
      AfterDotSnoc(seg[1..], r);
      assert (seg + [r])[1..] == seg[1..] + [r];
    }
  }

  lemma {:induction false} ValuesConcat(ss: seq<seq<Rune>>, tt: seq<seq<Rune>>)
    ensures Values(ss + tt) == Values(ss) + Values(tt)
  {
  }

  lemma {:induction false} AssembleSnoc(es: seq<Element>, e: Element)
    ensures Assemble(es + [e]) ==
            if Assemble(es).opcode == [] then Frame(e, []) else Assemble(es).(args := Assemble(es).args + [e])
  {
    if es == [] {
      assert [] + [e] == [e];
    } else if es[0] == [] {
      AssembleSnoc(es[1..], e);
      assert (es + [e])[1..] == es[1..] + [e];
    } else {
      assert (es + [e])[1..] == es[1..] + [e];
    }
  }

  // The string the loop has gathered since the last dot or separator.
  function Pending(rs: seq<Rune>): Element { Encode(AfterDot(Segments(rs)[|Segments(rs)| - 1])) }

  // One turn of the loop on a separator.
  lemma SeparatorTurn(rs: seq<Rune>, r: Rune)
    requires Separator(r)
    ensures Elements(rs + [r]) == Elements(rs) + [Pending(rs)]
    ensures Pending(rs + [r]) == []
  {
    var ss, n := Segments(rs), |Segments(rs)| - 1;
    SegmentsSnoc(rs, r);
    var tt := Append(ss, r);
    assert tt[..n + 1] == ss == ss[..n] + [ss[n]] && tt[n + 1] == [];
    ValuesConcat(ss[..n], [ss[n]]);
    assert Values([ss[n]]) == [Pending(rs)];
    assert AfterDot([]) == [];
  }

  // One turn of the loop on any other rune.
  lemma RuneTurn(rs: seq<Rune>, r: Rune)
    requires !Separator(r)
    ensures Elements(rs + [r]) == Elements(rs)
    ensures Pending(rs + [r]) == if r == DOT then [] else Pending(rs) + EncodeRune(r)
  {
    var ss, n := Segments(rs), |Segments(rs)| - 1;
    SegmentsSnoc(rs, r);
    AfterDotSnoc(ss[n], r);
    var tt := Append(ss, r);
    assert tt[..n] == ss[..n] && tt[n] == ss[n] + [r];
    EncodeConcat(AfterDot(ss[n]), [r]);
    assert Encode([r]) == EncodeRune(r) by { assert [r][1..] == [] && EncodeRune(r) + [] == EncodeRune(r); }
  }

  lemma RunesStep(bs: seq<Byte>, before: seq<Rune>)
    requires bs != []
    ensures before + Runes(bs) == before + [DecodeRune(bs).0] + Runes(bs[DecodeRune(bs).1..])
  {
    var r, rest := DecodeRune(bs).0, Runes(bs[DecodeRune(bs).1..]);
    assert Runes(bs) == [r] + rest;
    hide Runes, DecodeRune;
    assert before + ([r] + rest) == before + [r] + rest;
  }

  /** NewFrame never fails; on any bytes it returns what they mean. */
  method NewFrame(raw: seq<Byte>) returns (msg: Frame)
    ensures msg == Parse(raw)
  {
    msg := Frame([], []);
    var rawFrame, s := raw, [];
    ghost var done: seq<Rune> := [];
    while |rawFrame| > 0
      invariant Runes(raw) == done + Runes(rawFrame)
      invariant msg == Assemble(Elements(done)) && s == Pending(done)
      decreases |rawFrame|
    {
      RunesStep(rawFrame, done);
      hide DecodeRune, EncodeRune, Elements, Pending, Assemble, Runes;
      var (r, size) := DecodeRune(rawFrame);
      if r == DOT {
        RuneTurn(done, r);
        s := [];
      } else if r == COMMA || r == SEMICOLON {
        SeparatorTurn(done, r);
        AssembleSnoc(Elements(done), s);
        if msg.opcode == [] {
          msg := msg.(opcode := s);
        } else {
          msg := msg.(args := msg.args + [s]);
        }
        s := [];
      } else {
        RuneTurn(done, r);
        s := s + EncodeRune(r);
      }
      done := done + [r];
      rawFrame := rawFrame[size..];
    }
    assert done == Runes(raw);
  }
}
