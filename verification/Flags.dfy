/** The flag generator of store/flag.go. */
module Flags {
  import opened Wrappers
  import U = Utf8

  type Word = bv63     // what Int63 returns

  const LOWER := "abcdefghijklmnopqrstuvwxyz"
  const UPPER := "ABCDEFGHIJKLMNOPQRSTUVWXYZ"
  const DIGITS := "12345679"
  const LETTERS := LOWER + UPPER + DIGITS
  const CODES_PER_WORD := 10

  // ----- The stream of codes -----

  // The machine operations of the sampler, and those that put codes together again.
  function Low(w: Word): Word { w & 63 }
  function Value(w: Word): nat { w as int }
  function Shift(w: Word): Word { w >> 6 }
  function And(a: Word, b: Word): Word { a & b }
  function Above(high: Word, low: Word): Word { (high << 6) | low }

  /** The first `k` six-bit codes of a word, low bits first. */
  function Codes(w: Word, k: nat): (cs: seq<Word>)
    ensures |cs| == k
    decreases k
  {
    if k == 0 then [] else [Low(w)] + Codes(Shift(w), k - 1)
  }

  function Glue(cs: seq<Word>): Word {
    if cs == [] then 0 else Above(Glue(cs[1..]), cs[0])
  }

  function Mask(k: nat): Word {
    if k == 0 then 0 else Above(Mask(k - 1), 63)
  }

  lemma GlueStep(w: Word, m: Word)
    ensures Above(And(Shift(w), m), Low(w)) == And(w, Above(m, 63))
  {
  }

  lemma AndZero(w: Word)
    ensures And(w, 0) == 0
  {
  }

  /** The codes partition the low bits of the word: glued together they give those bits back, so every bit is
      used exactly once. */
  lemma {:induction false} CodesPartitionWord(w: Word, k: nat)
    ensures Glue(Codes(w, k)) == And(w, Mask(k))
    decreases k
  {
    hide Low, Shift, And, Above;
    if k == 0 {
      AndZero(w);
    } else {
      CodesPartitionWord(Shift(w), k - 1);
      GlueStep(w, Mask(k - 1));
      assert Codes(w, k)[1..] == Codes(Shift(w), k - 1);
    }
  }

  lemma TenCodesAreSixtyBits()
    ensures Mask(CODES_PER_WORD) == 0x0FFF_FFFF_FFFF_FFFF
  {
    assert Mask(5) == 0x3FFF_FFFF;
    assert Mask(7) == 0x3FF_FFFF_FFFF;
    assert Mask(9) == 0x3F_FFFF_FFFF_FFFF;
  }

  function Stream(words: seq<Word>): seq<Word> {
    if words == [] then [] else Stream(words[..|words| - 1]) + Codes(words[|words| - 1], CODES_PER_WORD)
  }

  /** The letters selected by the codes that index one; the others are rejected. */
  function Select(cs: seq<Word>): string {
    if cs == [] then "" else Select(cs[..|cs| - 1]) + Pick(cs[|cs| - 1])
  }

  function Pick(c: Word): string { if Value(c) < |LETTERS| then [LETTERS[Value(c)]] else "" }

  // ----- Which letters the codes select -----

  function Widen(b: bv6): (c: Word)
    ensures Value(c) == b as int
  {
    b as bv63
  }

  /** The code with number `i`. */
  function Code(i: nat): (c: Word)
    requires i < 64
    ensures Value(c) == i
  {
    assert (i as bv6) as int == i;
    Widen(i as bv6)
  }

  lemma LowIsCode(w: Word)
    ensures Value(Low(w)) < 64
  {
  }

  lemma LowerAt(i: nat)
    requires i < 26
    ensures LOWER[i] as int == 'a' as int + i
  {
  }

  lemma UpperAt(i: nat)
    requires i < 26
    ensures UPPER[i] as int == 'A' as int + i
  {
  }

  lemma DigitAt(i: nat)
    requires i < 8
    ensures DIGITS[i] as int == '1' as int + i + if i == 7 then 1 else 0
  {
  }

  /** What a code selects: 'a' to 'z', 'A' to 'Z', '1' to '7' and '9' in this order, and nothing for the last four. */
  lemma CodeSelects(c: Word)
    requires Value(c) < 64
    ensures Value(c) >= 60 ==> Pick(c) == ""
    ensures Value(c) < 60 ==> |Pick(c)| == 1
    ensures Value(c) < 26 ==> Pick(c)[0] as int == 'a' as int + Value(c)
    ensures 26 <= Value(c) < 52 ==> Pick(c)[0] as int == 'A' as int + Value(c) - 26
    ensures 52 <= Value(c) < 59 ==> Pick(c)[0] as int == '1' as int + Value(c) - 52
    ensures Value(c) == 59 ==> Pick(c) == "9"
  {
    var i := Value(c);
    LettersAt();
    hide Value;
    var letters := LETTERS;
    assert Pick(c) == if i < |letters| then [letters[i]] else "";
    hide Pick;
    if i < 26 {
      LowerAt(i);
    } else if i < 52 {
      UpperAt(i - 26);
    } else if i < 60 {
      DigitAt(i - 52);
    }
  }

  lemma LettersAt()
    ensures |LETTERS| == 60
    ensures forall i :: 0 <= i < 60 ==>
              LETTERS[i] == if i < 26 then LOWER[i] else if i < 52 then UPPER[i - 26] else DIGITS[i - 52]
  {
    assert |LOWER| == 26 && |UPPER| == 26 && |DIGITS| == 8;
  }

  /** The letters a flag is made of. */
  predicate Letter(x: char) { 'a' <= x <= 'z' || 'A' <= x <= 'Z' || '1' <= x <= '7' || x == '9' }

  // The number of the code that selects a letter.
  function CodeOf(x: char): (i: nat)
    requires Letter(x)
    ensures i < 60
  {
    if x >= 'a' then x as int - 'a' as int
    else if x >= 'A' then x as int - 'A' as int + 26
    else if x == '9' then 59 else x as int - '1' as int + 52
  }

  ghost function Rejected(): set<nat> { set i: nat | i < 64 && Pick(Code(i)) == "" }

  /** Of the 64 codes exactly four select nothing, each of the others selects one letter, and each letter is selected
      by exactly one code: no letter is more likely than another. */
  lemma EachLetterHasOneCode()
    ensures forall w: Word :: Value(Low(w)) < 64
    ensures |Rejected()| == 4
    ensures forall i: nat :: i < 64 ==> |Pick(Code(i))| <= 1 && forall x :: x in Pick(Code(i)) ==> Letter(x)
    ensures forall i: nat, j: nat :: i < 64 && j < 64 && Pick(Code(i)) == Pick(Code(j)) != "" ==> i == j
    ensures forall x: char :: Letter(x) ==> exists i: nat :: i < 64 && Pick(Code(i)) == [x]
  {
    RejectedFour();
    hide *;
    forall w: Word ensures Value(Low(w)) < 64 { LowIsCode(w); }
    forall i: nat | i < 64 ensures |Pick(Code(i))| <= 1 && forall x :: x in Pick(Code(i)) ==> Letter(x) {
      SelectsLetters(i);
    }
    forall i: nat, j: nat | i < 64 && j < 64 && Pick(Code(i)) == Pick(Code(j)) != "" ensures i == j {
      SelectsApart(i, j);
    }
    forall x: char | Letter(x) ensures exists i: nat :: i < 64 && Pick(Code(i)) == [x] { LetterSelected(x); }
  }

  // What CodeSelects says, over the numbers of the codes.
  ghost predicate Selects(i: nat)
    requires i < 64
  {
    var p := Pick(Code(i));
    if i < 60 then |p| == 1 && Letter(p[0]) && CodeOf(p[0]) == i else p == ""
  }

  lemma SelectsAt(i: nat)
    requires i < 64
    ensures Selects(i)
  {
    CodeSelects(Code(i));
    hide Pick, Code;
  }

  lemma RejectedFour()
    ensures |Rejected()| == 4
  {
    forall i: nat | i < 64 ensures Pick(Code(i)) == "" <==> i >= 60 { SelectsAt(i); }
    hide Pick, Code;
    assert Rejected() == {60, 61, 62, 63};
  }

  lemma SelectsLetters(i: nat)
    requires i < 64
    ensures |Pick(Code(i))| <= 1 && forall x :: x in Pick(Code(i)) ==> Letter(x)
  {
    SelectsAt(i);
    hide Pick, Code, Letter;
  }

  lemma SelectsApart(i: nat, j: nat)
    requires i < 64 && j < 64 && Pick(Code(i)) == Pick(Code(j)) != ""
    ensures i == j
  {
    SelectsAt(i);
    SelectsAt(j);
    hide Pick, Code, Letter, CodeOf;
  }

  lemma CodeOfInjective(x: char, y: char)
    requires Letter(x) && Letter(y) && CodeOf(x) == CodeOf(y)
    ensures x == y
  {
  }

  lemma LetterSelected(x: char)
    requires Letter(x)
    ensures exists i: nat :: i < 64 && Pick(Code(i)) == [x]
  {
    var i := CodeOf(x);
    SelectsAt(i);
    hide Pick, Code;
    var p := Pick(Code(i));
    CodeOfInjective(p[0], x);
    hide Letter, CodeOf;
    assert p == [p[0]] == [x];
  }

  function Reverse(s: string): (r: string)
    ensures |r| == |s|
    ensures forall i :: 0 <= i < |s| ==> r[i] == s[|s| - 1 - i]
  {
    if s == "" then "" else Reverse(s[1..]) + [s[0]]
  }

  lemma LastSplit<T>(s: seq<T>)
    requires s != []
    ensures s == s[..|s| - 1] + [s[|s| - 1]]
  {
  }

  lemma {:induction false} SelectConcat(a: seq<Word>, b: seq<Word>)
    ensures Select(a + b) == Select(a) + Select(b)
  {
    if b == [] {
      assert a + b == a && Select(b) == "";
    } else {
      hide *;
      var most, c := b[..|b| - 1], b[|b| - 1];
      SelectConcat(a, most);
      SelectSnoc(most, c);
      SelectSnoc(a + most, c);
      LastSplit(b);
      U.Associative(a, most, [c]);
      U.Associative(Select(a), Select(most), Pick(c));
    }
  }

  /** What the sampler promises for `n` letters and the words its source will return: the letters are the first
      `n` that the code stream selects, in reverse; no word is drawn in vain; it comes up short only when the
      words do. */
  ghost predicate Sampled(n: nat, words: seq<Word>, r: Option<string>, used: nat) {
    if words == [] || |Select(Stream(words))| < n then r == None
    else
      && r.Some? && 1 <= used <= |words|
      && n <= |Select(Stream(words[..used]))|
      && r.value == Reverse(Select(Stream(words[..used]))[..n])
      && (used > 1 ==> |Select(Stream(words[..used - 1]))| < n)
  }

  method RandCharBytes(n: nat, words: seq<Word>) returns (r: Option<string>, used: nat)
    ensures Sampled(n, words, r, used)
  {
    hide Position, Reverse, Low, Value, Shift, Sampled;
    if words == [] {
      assert Sampled(n, words, None, 0) by { Short(n, words); }
      return None, 0;
    }
    var b := new char[n];
    var i: int, cache, remain := n - 1, words[0], CODES_PER_WORD;
    used := 1;
    // Codes of earlier words, codes taken from this one, and the letters they selected.
    ghost var before: seq<Word>, now: seq<Word>, letters: string := [], [], "";
    FirstWord(n, words);
    while i >= 0
      invariant 0 <= remain <= CODES_PER_WORD && -1 <= i < n && 1 <= used <= |words|
      invariant Position(n, words, used, before, now, cache, remain, letters)
      invariant |letters| == n - 1 - i && forall j :: i < j < n ==> b[j] == letters[n - 1 - j]
      decreases |words| - used, remain, i
    {
      if remain == 0 {
        NextWord(n, words, used, before, now, cache, letters);
        if used == |words| {
          Short(n, words);
          return None, used;
        }
        cache, remain, used := words[used], CODES_PER_WORD, used + 1;
        before, now := before + now, [];
      }
      Turn(n, words, used, before, now, cache, remain, letters);
      var idx := Value(Low(cache));
      now := now + [Low(cache)];
      assert letters + "" == letters;
      if idx < |LETTERS| {
        b[i] := LETTERS[idx];
        letters := letters + [LETTERS[idx]];
        i := i - 1;
      }
      cache := Shift(cache);
      remain := remain - 1;
    }
    Done(n, words, used, before, now, cache, remain, letters);
    assert b[..] == Reverse(letters);
    r := Some(b[..]);
  }

  // Where the sampler stands in the code stream, and what it has selected.
  ghost predicate Position(n: nat, words: seq<Word>, used: nat, before: seq<Word>, now: seq<Word>, cache: Word,
                           remain: nat, letters: string)
  {
    && 1 <= used <= |words|
    && before == Stream(words[..used - 1])
    && Codes(words[used - 1], CODES_PER_WORD) == now + Codes(cache, remain)
    && letters == Select(before + now)
    && (used > 1 ==> |Select(before)| < n)
  }

  lemma Short(n: nat, words: seq<Word>)
    requires words == [] || |Select(Stream(words))| < n
    ensures forall used :: Sampled(n, words, None, used)
  {
  }

  lemma FirstWord(n: nat, words: seq<Word>)
    requires words != []
    ensures Position(n, words, 1, [], [], words[0], CODES_PER_WORD, "") && Reverse("") == ""
  {
    assert words[..0] == [];
    assert [] + Codes(words[0], CODES_PER_WORD) == Codes(words[0], CODES_PER_WORD);
    hide Codes;
  }

  lemma Turn(n: nat, words: seq<Word>, used: nat, before: seq<Word>, now: seq<Word>, cache: Word, remain: nat,
             letters: string)
    requires Position(n, words, used, before, now, cache, remain, letters) && remain > 0
    ensures Position(n, words, used, before, now + [Low(cache)], Shift(cache), remain - 1,
                     letters + Pick(Low(cache)))
  {
    hide Low, Shift, Stream, Select, Pick, Codes;
    CodesHead(now, cache, remain);
    assert before + (now + [Low(cache)]) == before + now + [Low(cache)];
    SelectSnoc(before + now, Low(cache));
  }

  lemma CodesHead(now: seq<Word>, cache: Word, remain: nat)
    requires remain > 0
    ensures now + Codes(cache, remain) == now + [Low(cache)] + Codes(Shift(cache), remain - 1)
  {
    hide Low, Shift;
    var rest := Codes(Shift(cache), remain - 1);
    assert Codes(cache, remain) == [Low(cache)] + rest;
    hide Codes;
  }

  lemma SelectSnoc(cs: seq<Word>, c: Word)
    ensures Select(cs + [c]) == Select(cs) + Pick(c)
  {
    hide Pick;
    assert (cs + [c])[..|cs|] == cs;
  }

  lemma NextWord(n: nat, words: seq<Word>, used: nat, before: seq<Word>, now: seq<Word>, cache: Word, letters: string)
    requires Position(n, words, used, before, now, cache, 0, letters) && |letters| < n
    ensures used < |words| ==>
              Position(n, words, used + 1, before + now, [], words[used], CODES_PER_WORD, letters)
    ensures used == |words| ==> |Select(Stream(words))| < n
  {
    assert now + Codes(cache, 0) == now;
    StreamStep(words, used);
    hide Codes, Stream, Select;
    if used < |words| {
      assert [] + Codes(words[used], CODES_PER_WORD) == Codes(words[used], CODES_PER_WORD);
      assert before + now + [] == before + now;
    } else {
      assert words[..used] == words;
    }
  }

  // Codes that were not looked at do not change the first letters.
  lemma Done(n: nat, words: seq<Word>, used: nat, before: seq<Word>, now: seq<Word>, cache: Word, remain: nat,
             letters: string)
    requires Position(n, words, used, before, now, cache, remain, letters) && |letters| == n
    ensures Sampled(n, words, Some(Reverse(letters)), used)
  {
    hide Select, Stream, Codes, Reverse;
    StreamStep(words, used);
    assert before + (now + Codes(cache, remain)) == before + now + Codes(cache, remain);
    SelectConcat(before + now, Codes(cache, remain));
    StreamPrefix(words, used);
  }

  lemma StreamStep(words: seq<Word>, used: nat)
    requires 1 <= used <= |words|
    ensures Stream(words[..used]) == Stream(words[..used - 1]) + Codes(words[used - 1], CODES_PER_WORD)
  {
    assert words[..used][..used - 1] == words[..used - 1];
  }

  lemma {:induction false} StreamPrefix(words: seq<Word>, used: nat)
    requires used <= |words|
    ensures Select(Stream(words[..used])) <= Select(Stream(words))
  {
    if used == |words| {
      assert words[..used] == words;
    } else {
      var most := words[..|words| - 1];
      StreamPrefix(most, used);
      assert most[..used] == words[..used];
      SelectConcat(Stream(most), Codes(words[|words| - 1], CODES_PER_WORD));
    }
  }

  // ----- Flags as teams see them -----

  const UNIQUE_CHARS := 10

  /** formatFlag: what a team has to submit, apart from the dashes. */
  function Format(unique: string): string { "HKN{" + unique + "}" }

  // The random choices String makes for the two dashes.
  predicate DashesAt(i: nat, j: nat) { 2 <= i <= 3 && i + 2 <= j <= i + 3 }

  /** Flag.String for a generated flag. */
  function Show(flag: string, i: nat, j: nat): string
    requires |flag| == UNIQUE_CHARS + 5 && DashesAt(i, j)
  {
    var str := flag[4..UNIQUE_CHARS + 4];
    "HKN{" + str[..i] + "-" + str[i..j] + "-" + str[j..] + "}"
  }

  function Strip(s: string): string {
    if s == "" then "" else (if s[0] == '-' then "" else [s[0]]) + Strip(s[1..])
  }

  /** A flag NewFlag can produce. */
  ghost predicate Generated(flag: string) {
    exists cs :: |Select(cs)| == UNIQUE_CHARS && flag == Format(Reverse(Select(cs)))
  }

  method NewFlag(words: seq<Word>) returns (r: Option<string>)
    ensures r.None? <==> words == [] || |Select(Stream(words))| < UNIQUE_CHARS
    ensures r.Some? ==> r.value == Format(Reverse(Select(Stream(words))[..UNIQUE_CHARS]))
    ensures r.Some? ==> |r.value| == UNIQUE_CHARS + 5 && Generated(r.value)
  {
    var s, used := RandCharBytes(UNIQUE_CHARS, words);
    if s.None? { return None; }
    StreamPrefix(words, used);
    FirstOfPrefix(Select(Stream(words[..used])), Select(Stream(words)), UNIQUE_CHARS);
    ghost var cs := FirstSelected(Stream(words), UNIQUE_CHARS);
    r := Some(Format(s.value));
  }

  lemma FirstOfPrefix(a: string, b: string, n: nat)
    requires a <= b && n <= |a|
    ensures a[..n] == b[..n]
  {
  }

  lemma {:induction false} FirstSelected(cs: seq<Word>, n: nat) returns (ds: seq<Word>)
    requires n <= |Select(cs)|
    ensures Select(ds) == Select(cs)[..n]
  {
    if n == |Select(cs)| {
      ds := cs;
    } else {
      ds := FirstSelected(cs[..|cs| - 1], n);
    }
  }

  lemma {:induction false} NoDashSelected(cs: seq<Word>)
    ensures '-' !in Select(cs)
  {
    if cs != [] {
      NoDashSelected(cs[..|cs| - 1]);
      NoDashPicked(cs[|cs| - 1]);
      hide Pick;
    }
  }

  lemma NoDashPicked(c: Word)
    ensures '-' !in Pick(c)
  {
    hide Value;
    NoDashLetter();
    var letters := LETTERS;
    assert Pick(c) == if Value(c) < |letters| then [letters[Value(c)]] else "";
    if Value(c) < |letters| { IndexIn(letters, Value(c)); }
  }

  lemma NoDashLetter()
    ensures '-' !in LETTERS
  {
    assert '-' !in LOWER && '-' !in UPPER && '-' !in DIGITS;
  }

  lemma IndexIn(s: string, i: nat)
    requires i < |s|
    ensures s[i] in s
  {
  }

  lemma {:induction false} StripConcat(s: string, t: string)
    ensures Strip(s + t) == Strip(s) + Strip(t)
  {
    if s == "" {
      assert s + t == t && Strip(s) == "";
    } else {
      StripConcat(s[1..], t);
      assert (s + t)[1..] == s[1..] + t && (s + t)[0] == s[0];
      var head := if s[0] == '-' then "" else [s[0]];
      assert head + (Strip(s[1..]) + Strip(t)) == head + Strip(s[1..]) + Strip(t);
    }
  }

  lemma {:induction false} NothingToStrip(s: string)
    requires '-' !in s
    ensures Strip(s) == s
  {
    if s != "" { NothingToStrip(s[1..]); }
  }

  /** Wherever the dashes went, leaving them out gives the flag back. */
  lemma StripUndoesShow(flag: string, i: nat, j: nat)
    requires |flag| == UNIQUE_CHARS + 5 && Generated(flag) && DashesAt(i, j)
    ensures Strip(Show(flag, i, j)) == flag
  {
    var str := GeneratedBody(flag);
    hide Generated, Strip, Show, Format;
    ShowSplits(flag, i, j);
    assert '-' !in "HKN{" && '-' !in "}";
    StripTwoDashes("HKN{" + str[..i], str[i..j], str[j..] + "}");
    JoinAgain(str, i, j);
  }

  lemma JoinAgain(str: string, i: nat, j: nat)
    requires i <= j <= |str|
    ensures ("HKN{" + str[..i]) + str[i..j] + (str[j..] + "}") == Format(str)
  {
    assert str == str[..i] + str[i..j] + str[j..];
  }

  lemma GeneratedBody(flag: string) returns (str: string)
    requires Generated(flag)
    ensures |str| == UNIQUE_CHARS && '-' !in str && flag == Format(str) && flag[4..UNIQUE_CHARS + 4] == str
  {
    var cs :| |Select(cs)| == UNIQUE_CHARS && flag == Format(Reverse(Select(cs)));
    NoDashSelected(cs);
    str := Reverse(Select(cs));
  }

  lemma ShowSplits(flag: string, i: nat, j: nat)
    requires |flag| == UNIQUE_CHARS + 5 && DashesAt(i, j)
    ensures var str := flag[4..UNIQUE_CHARS + 4];
      Show(flag, i, j) == "HKN{" + str[..i] + "-" + str[i..j] + "-" + (str[j..] + "}")
  {
  }

  lemma StripTwoDashes(a: string, b: string, c: string)
    requires '-' !in a && '-' !in b && '-' !in c
    ensures Strip(a + "-" + b + "-" + c) == a + b + c
  {
    assert Strip("-") == "" by { assert "-"[1..] == ""; }
    NothingToStrip(a);
    NothingToStrip(b);
    NothingToStrip(c);
    hide Strip;
    StripConcat(a + "-" + b + "-", c);
    StripConcat(a + "-" + b, "-");
    StripConcat(a + "-", b);
    StripConcat(a, "-");
    assert a + "" == a && a + b + "" == a + b;
  }

  /** The letters of a flag in three parts, of which the first two have two or three letters. */
  predicate Parts(flag: string, a: string, b: string, c: string) {
    flag == "HKN{" + a + b + c + "}" && 2 <= |a| <= 3 && 2 <= |b| <= 3
  }

  /** A flag is shown as exactly those texts that join such parts by dashes. */
  lemma ShownAsParts(flag: string, text: string)
    requires |flag| == UNIQUE_CHARS + 5 && Generated(flag)
    ensures (exists i: nat, j: nat :: DashesAt(i, j) && text == Show(flag, i, j))
            <==> exists a, b, c :: Parts(flag, a, b, c) && text == "HKN{" + a + "-" + b + "-" + c + "}"
  {
    var str := GeneratedBody(flag);
    hide Generated, Show, Parts;
    if i: nat, j: nat :| DashesAt(i, j) && text == Show(flag, i, j) { ShownHasParts(flag, str, i, j); }
    if a, b, c :| Parts(flag, a, b, c) && text == "HKN{" + a + "-" + b + "-" + c + "}" {
      PartsAreShown(flag, str, a, b, c);
    }
  }

  lemma ShownHasParts(flag: string, str: string, i: nat, j: nat)
    requires |flag| == UNIQUE_CHARS + 5 && flag == Format(str) && flag[4..UNIQUE_CHARS + 4] == str && DashesAt(i, j)
    ensures Parts(flag, str[..i], str[i..j], str[j..])
    ensures Show(flag, i, j) == "HKN{" + str[..i] + "-" + str[i..j] + "-" + str[j..] + "}"
  {
    assert str == str[..i] + str[i..j] + str[j..];
  }

  lemma PartsAreShown(flag: string, str: string, a: string, b: string, c: string)
    requires |flag| == UNIQUE_CHARS + 5 && flag == Format(str) && flag[4..UNIQUE_CHARS + 4] == str
    requires Parts(flag, a, b, c)
    ensures DashesAt(|a|, |a| + |b|)
    ensures Show(flag, |a|, |a| + |b|) == "HKN{" + a + "-" + b + "-" + c + "}"
  {
    PartsOf(str, a, b, c);
  }

  lemma PartsOf(str: string, a: string, b: string, c: string)
    requires Format(str) == "HKN{" + a + b + c + "}"
    ensures str == a + b + c
    ensures str[..|a|] == a && str[|a|..|a| + |b|] == b && str[|a| + |b|..] == c
  {
    var f := Format(str);
    assert |str| == |a| + |b| + |c|;
    assert str == f[4..4 + |str|] && a + b + c == f[4..4 + |str|];
  }

  /** So two different flags never look alike, whatever the dashes. */
  lemma ShowIsInjective(f: string, i: nat, j: nat, g: string, k: nat, l: nat)
    requires |f| == |g| == UNIQUE_CHARS + 5 && Generated(f) && Generated(g) && DashesAt(i, j) && DashesAt(k, l)
    requires Show(f, i, j) == Show(g, k, l)
    ensures f == g
  {
    StripUndoesShow(f, i, j);
    StripUndoesShow(g, k, l);
  }
}
