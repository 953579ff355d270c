/** The key and mouse filters of svcs/guacamole/keylogger.go and the typed frames of proto.go. */
module KeyLogger {
  import opened Utf8
  import opened Decimal
  import opened Frames
  import opened FrameLaws

  const KEY: Element := [107, 101, 121]
  const MOUSE: Element := [109, 111, 117, 115, 101]
  const KEY_OPCODE: seq<Byte> := [51, 46, 107, 101, 121]                 // "3.key"
  const MOUSE_OPCODE: seq<Byte> := [53, 46, 109, 111, 117, 115, 101]     // "5.mouse"

  datatype KeyFrame = KeyFrame(key: Element, pressed: Element)
  datatype MouseFrame = MouseFrame(x: Element, y: Element, button: Element)

  datatype FrameError = InvalidOpcode | InvalidArgs
  datatype Parsed<T> = Ok(frame: T) | Err(error: FrameError)

  /** The three outcomes of a filter: `(frame, true, nil)`, `(nil, false, nil)` and `(nil, false, err)`. */
  datatype Filtered<T> = Accepted(frame: T) | Ignored | Failed(error: FrameError)

  function NewKeyFrame(f: Frame): Parsed<KeyFrame> {
    if f.opcode != KEY then Err(InvalidOpcode)
    else if |f.args| != 2 then Err(InvalidArgs)
    else Ok(KeyFrame(f.args[0], f.args[1]))
  }

  function NewMouseFrame(f: Frame): Parsed<MouseFrame> {
    if f.opcode != MOUSE then Err(InvalidOpcode)
    else if |f.args| != 3 then Err(InvalidArgs)
    else Ok(MouseFrame(f.args[0], f.args[1], f.args[2]))
  }

  function KeyPressed(kf: KeyFrame): bool { kf.pressed == [49] }

  function MouseClicked(mf: MouseFrame): bool { mf.button == [49] || mf.button == [52] || mf.button == [50] }

  predicate StartsWith(s: seq<Byte>, prefix: seq<Byte>) { prefix <= s }

  predicate Passes<T>(conditions: seq<T -> bool>, frame: T) {
    forall i :: 0 <= i < |conditions| ==> conditions[i](frame)
  }

  /** What a typed frame becomes once its conditions have been tried. */
  function Judge<T>(p: Parsed<T>, conditions: seq<T -> bool>): Filtered<T> {
    match p
    case Err(error) => Failed(error)
    case Ok(frame) => if Passes(conditions, frame) then Accepted(frame) else Ignored
  }

  function KeyVerdict(raw: seq<Byte>, conditions: seq<KeyFrame -> bool>): Filtered<KeyFrame> {
    if StartsWith(raw, KEY_OPCODE) then Judge(NewKeyFrame(Parse(raw)), conditions) else Ignored
  }

  function MouseVerdict(raw: seq<Byte>, conditions: seq<MouseFrame -> bool>): Filtered<MouseFrame> {
    if StartsWith(raw, MOUSE_OPCODE) then Judge(NewMouseFrame(Parse(raw)), conditions) else Ignored
  }

  method FilterKey(raw: seq<Byte>, conditions: seq<KeyFrame -> bool>) returns (r: Filtered<KeyFrame>)
    ensures r == KeyVerdict(raw, conditions)
  {
    if |raw| < |KEY_OPCODE| { return Ignored; }
    if KEY_OPCODE != raw[..|KEY_OPCODE|] { return Ignored; }
    var f := NewFrame(raw);
    var kf := NewKeyFrame(f);
    if kf.Err? { return Failed(kf.error); }
    for i := 0 to |conditions|
      invariant forall j :: 0 <= j < i ==> conditions[j](kf.frame)
    {
      if !conditions[i](kf.frame) { return Ignored; }
    }
    return Accepted(kf.frame);
  }

  method FilterMouse(raw: seq<Byte>, conditions: seq<MouseFrame -> bool>) returns (r: Filtered<MouseFrame>)
    ensures r == MouseVerdict(raw, conditions)
  {
    if |raw| < |MOUSE_OPCODE| { return Ignored; }
    if MOUSE_OPCODE != raw[..|MOUSE_OPCODE|] { return Ignored; }
    var f := NewFrame(raw);
    var mf := NewMouseFrame(f);
    if mf.Err? { return Failed(mf.error); }
    for i := 0 to |conditions|
      invariant forall j :: 0 <= j < i ==> conditions[j](mf.frame)
    {
      if !conditions[i](mf.frame) { return Ignored; }
    }
    return Accepted(mf.frame);
  }

  /** On any bytes, valid or not, the key filter accepts exactly those with the prefix that parse to a key frame of two
      arguments, which it hands on, and that pass every condition; with the prefix, another opcode and another number of
      arguments are errors, the opcode first. */
  lemma KeyFilterOnAnyBytes(raw: seq<Byte>, conditions: seq<KeyFrame -> bool>)
    ensures var r, f := KeyVerdict(raw, conditions), Parse(raw);
      && (forall k, p :: r == Accepted(KeyFrame(k, p)) <==>
                           KEY_OPCODE <= raw && f == Frame([107, 101, 121], [k, p])
                           && Passes(conditions, KeyFrame(k, p)))
      && (r == Failed(InvalidOpcode) <==> KEY_OPCODE <= raw && f.opcode != [107, 101, 121])
      && (r == Failed(InvalidArgs) <==> KEY_OPCODE <= raw && f.opcode == [107, 101, 121] && |f.args| != 2)
  {
    hide Parse, Passes;
    var f := Parse(raw);
    if |f.args| == 2 { assert f.args == [f.args[0], f.args[1]]; }
  }

  /** The same for mouse frames, with three arguments. */
  lemma MouseFilterOnAnyBytes(raw: seq<Byte>, conditions: seq<MouseFrame -> bool>)
    ensures var r, f := MouseVerdict(raw, conditions), Parse(raw);
      && (forall x, y, b :: r == Accepted(MouseFrame(x, y, b)) <==>
                              MOUSE_OPCODE <= raw && f == Frame([109, 111, 117, 115, 101], [x, y, b])
                              && Passes(conditions, MouseFrame(x, y, b)))
      && (r == Failed(InvalidOpcode) <==> MOUSE_OPCODE <= raw && f.opcode != [109, 111, 117, 115, 101])
      && (r == Failed(InvalidArgs) <==>
            MOUSE_OPCODE <= raw && f.opcode == [109, 111, 117, 115, 101] && |f.args| != 3)
  {
    hide Parse, Passes;
    var f := Parse(raw);
    if |f.args| == 3 { assert f.args == [f.args[0], f.args[1], f.args[2]]; }
  }

  // ----- The prefix test on printed frames -----

  // What follows the opcode in a printed frame.
  lemma PrintedHead(f: Frame) returns (rest: seq<Byte>)
    ensures Print(f) == Itoa(|Runes(f.opcode)|) + [DOT] + f.opcode + rest
    ensures rest != [] && Separator(rest[0])
  {
    var es := [f.opcode] + f.args;
    assert es[0] == f.opcode;
    if f.args == [] {
      rest := [SEMICOLON];
    } else {
      rest := [COMMA] + PrintAll(es[1..]);
    }
  }

  predicate Word(w: seq<Byte>) {
    1 <= |w| <= 9 && forall i :: 0 <= i < |w| ==> 97 <= w[i] < 123
  }

  // A valid string that begins with an ASCII word and has as many characters is that word.
  lemma SameLengthIsWord(s: Element, w: seq<Byte>)
    requires Word(w) && Valid(s) && w <= s && |Runes(s)| == |w|
    ensures s == w
  {
    AsciiRunes(w);
    assert s == w + s[|w|..];
    RunesConcat(w, s[|w|..]);
    assert |Runes(s[|w|..])| == 0;
  }

  /** For a word like "key", testing the first bytes of a printed frame is the same as testing its opcode. */
  lemma PrefixTestIsExact(f: Frame, w: seq<Byte>)
    requires Word(w) && Clean(f.opcode)
    ensures StartsWith(Print(f), Itoa(|w|) + [DOT] + w) <==> f.opcode == w
  {
    var rest := PrintedHead(f);
    AsciiRunes(w);
    hide Runes, Itoa, Print, Valid, CleanRunes;
    if StartsWith(Print(f), Itoa(|w|) + [DOT] + w) {
      LengthMatches(f, w, rest);
      PrefixMeansOpcode(Itoa(|w|) + [DOT], w, f.opcode, rest);
    } else {
      PrefixStarts(Itoa(|w|) + [DOT], w, rest);
    }
  }

  lemma PrefixStarts(head: seq<Byte>, w: seq<Byte>, rest: seq<Byte>)
    ensures head + w <= head + w + rest
  {
  }

  lemma PrefixMeansOpcode(head: seq<Byte>, w: seq<Byte>, opcode: Element, rest: seq<Byte>)
    requires Word(w) && Clean(opcode) && |Runes(opcode)| == |w| && rest != [] && Separator(rest[0])
    requires head + w <= head + opcode + rest
    ensures opcode == w
  {
    assert head + opcode + rest == head + (opcode + rest);
    SamePrefix(head, w, opcode + rest);
    WordInOpcode(w, opcode, rest);
    SameLengthIsWord(opcode, w);
  }

  lemma SamePrefix(head: seq<Byte>, a: seq<Byte>, b: seq<Byte>)
    requires head + a <= head + b
    ensures a <= b
  {
    assert forall i :: 0 <= i < |a| ==> a[i] == (head + a)[|head| + i] == (head + b)[|head| + i] == b[i];
  }

  lemma WordInOpcode(w: seq<Byte>, opcode: seq<Byte>, rest: seq<Byte>)
    requires Word(w) && w <= opcode + rest && rest != [] && Separator(rest[0])
    ensures w <= opcode
  {
    assert (opcode + rest)[|opcode|] == rest[0];
  }

  lemma LengthMatches(f: Frame, w: seq<Byte>, rest: seq<Byte>)
    requires Word(w) && Print(f) == Itoa(|Runes(f.opcode)|) + [DOT] + f.opcode + rest
    requires StartsWith(Print(f), Itoa(|w|) + [DOT] + w)
    ensures |Runes(f.opcode)| == |w| && |Itoa(|w|)| == 1
  {
    var length := Itoa(|Runes(f.opcode)|);
    var prefix := Itoa(|w|) + [DOT] + w;
    assert prefix[1] == DOT && Print(f)[1] == DOT && !Digit(DOT);
    assert forall i :: 0 <= i < |length| ==> Digit(Print(f)[i]);
    assert |length| == 1;
    assert prefix[0] == Print(f)[0] == length[0];
    assert length == [length[0]] == Itoa(|w|);
    ItoaInjective(|Runes(f.opcode)|, |w|);
  }

  // ----- The filters and the logger on printed frames -----

  // A frame that some client can have sent: its fields are clean and it has an opcode.
  predicate Sendable(f: Frame) { CleanFrame(f) && f.opcode != [] }

  lemma PrefixIsKey(f: Frame)
    requires Sendable(f)
    ensures StartsWith(Print(f), KEY_OPCODE) <==> f.opcode == KEY
    ensures StartsWith(Print(f), MOUSE_OPCODE) <==> f.opcode == MOUSE
    ensures Parse(Print(f)) == f
  {
    assert Itoa(3) + [DOT] + KEY == KEY_OPCODE && Itoa(5) + [DOT] + MOUSE == MOUSE_OPCODE;
    PrefixTestIsExact(f, KEY);
    PrefixTestIsExact(f, MOUSE);
    RoundTripIff(f);
  }

  /** On what a client sends, the key filter accepts precisely the key frames with two arguments that pass every
      condition, reports the key frames with another number of arguments, and ignores all other frames. */
  lemma KeyFilterIsExact(f: Frame, conditions: seq<KeyFrame -> bool>)
    requires Sendable(f)
    ensures var r := KeyVerdict(Print(f), conditions);
      && (r.Accepted? <==> f.opcode == KEY && |f.args| == 2 && Passes(conditions, KeyFrame(f.args[0], f.args[1])))
      && (r.Accepted? ==> r.frame == KeyFrame(f.args[0], f.args[1]))
      && (r.Failed? <==> f.opcode == KEY && |f.args| != 2)
      && (r.Failed? ==> r.error == InvalidArgs)
  {
    PrefixIsKey(f);
    hide Print, Parse, StartsWith, Passes;
  }

  lemma MouseFilterIsExact(f: Frame, conditions: seq<MouseFrame -> bool>)
    requires Sendable(f)
    ensures var r := MouseVerdict(Print(f), conditions);
      && (r.Accepted? <==> f.opcode == MOUSE && |f.args| == 3
                           && Passes(conditions, MouseFrame(f.args[0], f.args[1], f.args[2])))
      && (r.Accepted? ==> r.frame == MouseFrame(f.args[0], f.args[1], f.args[2]))
      && (r.Failed? <==> f.opcode == MOUSE && |f.args| != 3)
      && (r.Failed? ==> r.error == InvalidArgs)
  {
    PrefixIsKey(f);
    hide Print, Parse, StartsWith, Passes;
  }

  datatype Logged = KeyLine(k: Element, p: Element) | MouseLine(x: Element, y: Element, b: Element) | Silent

  function LogVerdict(raw: seq<Byte>): Logged {
    var kf, mf := KeyVerdict(raw, [KeyPressed]), MouseVerdict(raw, [MouseClicked]);
    if kf.Accepted? then KeyLine(kf.frame.key, kf.frame.pressed)
    else if mf.Accepted? then MouseLine(mf.frame.x, mf.frame.y, mf.frame.button)
    else Silent
  }

  /** One turn of keyLogger.run, with the conditions NewKeyLogger installs. */
  method LogFrame(raw: seq<Byte>) returns (line: Logged)
    ensures line == LogVerdict(raw)
  {
    line := Silent;
    var kf := FilterKey(raw, [KeyPressed]);
    if kf.Accepted? { return KeyLine(kf.frame.key, kf.frame.pressed); }
    var mf := FilterMouse(raw, [MouseClicked]);
    if mf.Accepted? { line := MouseLine(mf.frame.x, mf.frame.y, mf.frame.button); }
  }

  /** The log has a line for every key pressed and every button 1, 2 or 4 clicked, and for nothing else. */
  lemma LogIsExact(f: Frame)
    requires Sendable(f)
    ensures LogVerdict(Print(f)) ==
            if f.opcode == KEY && |f.args| == 2 && f.args[1] == [49] then KeyLine(f.args[0], f.args[1])
            else if f.opcode == MOUSE && |f.args| == 3 && (f.args[2] == [49] || f.args[2] == [50] || f.args[2] == [52])
            then MouseLine(f.args[0], f.args[1], f.args[2])
            else Silent
  {
    KeyFilterIsExact(f, [KeyPressed]);
    MouseFilterIsExact(f, [MouseClicked]);
    hide KeyVerdict, MouseVerdict, Print;
    if f.opcode == KEY && |f.args| == 2 { OnlyCondition(KeyPressed, KeyFrame(f.args[0], f.args[1])); }
    if f.opcode == MOUSE && |f.args| == 3 { OnlyCondition(MouseClicked, MouseFrame(f.args[0], f.args[1], f.args[2])); }
    assert |KEY| != |MOUSE|;
    hide Passes;
  }

  lemma OnlyCondition<T>(condition: T -> bool, frame: T)
    ensures Passes([condition], frame) <==> condition(frame)
  {
    assert [condition][0] == condition;
  }
}
