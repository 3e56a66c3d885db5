/** The modifier loop of the hook-tab parser, for every text: each text with short tokens is a list of
    modifiers and a rest, and the loop reads exactly that list. */
module HookTabMods {
  import opened Seqs
  import opened Hooks
  import opened Options
  import opened HookTab
  import opened FlagBits

  // ---------------------------------------------------------------- tokens

  predicate Blanks(s: string) {
    forall k :: 0 <= k < |s| ==> Blank(s[k])
  }

  predicate Solid(s: string) {
    forall k :: 0 <= k < |s| ==> !Stop(s[k])
  }

  predicate NoComma(s: string) {
    forall k :: 0 <= k < |s| ==> s[k] != ','
  }

  /** A token cannot run on into what follows. */
  predicate Apart(s: string) {
    s == "" || Stop(s[0])
  }

  lemma {:induction false} TokenOf(w: string, rest: string)
    requires Solid(w)
    ensures TokenLen(w + rest) == |w| + TokenLen(rest)
  {
    if w == "" {
      assert w + rest == rest;
    } else {
      assert (w + rest)[1..] == w[1..] + rest;
      TokenOf(w[1..], rest);
    }
  }

  lemma {:induction false} SkipOf(b: string, rest: string)
    requires Blanks(b)
    ensures SkipBlanks(b + rest) == SkipBlanks(rest)
  {
    if b == "" {
      assert b + rest == rest;
    } else {
      assert (b + rest)[1..] == b[1..] + rest;
      SkipOf(b[1..], rest);
    }
  }

  lemma {:induction false} CommaOf(w: string, rest: string)
    requires NoComma(w)
    ensures Comma(w + rest) == |w| + Comma(rest)
  {
    if w == "" {
      assert w + rest == rest;
    } else {
      assert (w + rest)[1..] == w[1..] + rest;
      CommaOf(w[1..], rest);
    }
  }

  // ---------------------------------------------------------------- short tokens

  /** No run of characters that are neither blank nor line end reaches n. */
  predicate Runs(s: string, n: nat) {
    forall k :: 0 <= k <= |s| ==> TokenLen(s[k..]) < n
  }

  lemma RunsSuffix(s: string, n: nat, j: nat)
    requires Runs(s, n) && j <= |s|
    ensures Runs(s[j..], n) && TokenLen(s[j..]) < n
  {
    forall k | 0 <= k <= |s[j..]|
      ensures TokenLen(s[j..][k..]) < n
    {
      assert s[j..][k..] == s[j + k..];
    }
  }

  lemma RunsFirst(s: string, n: nat)
    requires Runs(s, n)
    ensures TokenLen(s) < n
  {
    assert s[0..] == s;
  }

  lemma SkipRuns(s: string, n: nat)
    requires Runs(s, n)
    ensures Runs(SkipBlanks(s), n)
  {
    hide *;
    var a := SkipBlanks(s);
    SkipBlanksIs(s);
    RunsSuffix(s, n, |s| - |a|);
  }

  lemma ClipUnwrapped(s: string, n: nat)
    requires n <= |s| && n < 256
    ensures Clip(s, n) == if n < 128 then Some(s[..n]) else None
    ensures |s[..n]| == n
  {
  }

  lemma FirstShort(s: string)
    requires Runs(s, 128)
    ensures var a := SkipBlanks(s);
      var n := TokenLen(a);
      && Runs(a, 128) && Runs(a[n..], 128) && Clip(a, n) == Some(a[..n]) && |a[..n]| == n && |a[n..]| <= |s| - n
  {
    hide Runs, TokenLen, SkipBlanks, Clip;
    SkipRuns(s, 128);
    var a := SkipBlanks(s);
    RunsFirst(a, 128);
    ClipUnwrapped(a, TokenLen(a));
    RunsSuffix(a, 128, TokenLen(a));
  }

  // ---------------------------------------------------------------- names

  lemma NameSolid(i: nat)
    requires i < 5
    ensures var w := MODIFIERS[i]; Solid(w) && NoComma(w) && 0 < |w| < 128
  {
  }

  lemma NameFound(i: nat)
    requires i < 5
    ensures FirstMatch(MODIFIERS[i], MODIFIERS) == i
  {
    assert MODIFIERS[0][5] == 'R' && MODIFIERS[1][5] == 'F' && MODIFIERS[2][5] == 'B';
    assert MODIFIERS[0][0] == 'E' && MODIFIERS[3][0] == 'N' && MODIFIERS[4][0] == 'O';
    hide FirstMatch;
    FirstMatchIs(MODIFIERS[i], MODIFIERS, i);
  }

  /** Each modifier name is one token without commas, and is recognised as itself. */
  lemma NameFacts(i: nat)
    requires i < 5
    ensures var w := MODIFIERS[i];
      && Solid(w) && NoComma(w) && 0 < |w| < 128
      && ModOf(w) == CODES[i] && CODES[i] != MOD_MAX
  {
    NameSolid(i);
    NameFound(i);
    hide FirstMatch, Solid;
  }

  /** The code of a word, by spelling: that of the first name it is a prefix of. */
  lemma CodeBySpelling(w: string)
    ensures ModOf(w) ==
      if w <= "EDGE_RISING" then 1
      else if w <= "EDGE_FALLING" then 2
      else if w <= "EDGE_BOTH" then 3
      else if w <= "NO_LOOP" then 4
      else if w <= "ONESHOT" then 5
      else MOD_MAX
  {
    hide FirstMatch;
    FirstMatchIs(w, MODIFIERS,
                 if w <= "EDGE_RISING" then 0
                 else if w <= "EDGE_FALLING" then 1
                 else if w <= "EDGE_BOTH" then 2
                 else if w <= "NO_LOOP" then 3
                 else if w <= "ONESHOT" then 4
                 else 5);
  }

  // ---------------------------------------------------------------- modifier lists

  predicate Known(w: string) {
    ModOf(w) != MOD_MAX
  }

  /** A modifier in a text: the blanks before it, the word, and the blanks between it and its comma. */
  datatype ModText = ModText(before: string, word: string, after: string)

  ghost predicate OneMod(m: ModText) {
    Blanks(m.before) && Blanks(m.after) && Solid(m.word) && NoComma(m.word)
  }

  /** A modifier with a comma behind it. Behind an unknown or empty word the comma follows at once. */
  ghost predicate ModThenComma(m: ModText) {
    OneMod(m) && (!Known(m.word) || m.word == "" ==> m.after == "")
  }

  /** A modifier with no comma behind it; `tail` is the rest of the text. */
  ghost predicate LastMod(m: ModText, tail: string) {
    && OneMod(m) && Apart(tail)
    && (m.word == "" && tail != "" ==> !Blank(tail[0]))
    && (Known(m.word) && SkipBlanks(tail) != "" ==> SkipBlanks(tail)[0] != ',')
  }

  /** The modifiers that the loop reads, and the text behind them. */
  ghost predicate ModList(mods: seq<ModText>, tail: string) {
    && mods != []
    && (forall k :: 0 <= k < |mods| - 1 ==> ModThenComma(mods[k]))
    && LastMod(mods[|mods| - 1], tail)
  }

  ghost function PrintMods(mods: seq<ModText>): string
    requires mods != []
  {
    if |mods| == 1 then mods[0].before + mods[0].word
    else mods[0].before + (mods[0].word + (mods[0].after + ("," + PrintMods(mods[1..]))))
  }

  /** What a word adds to the flags: an unknown one nothing, or EDGE_RISING if a comma follows. */
  function Code(w: string, last: bool): bv16 {
    if Known(w) then ModOf(w) else if last then 0 else RISE
  }

  /** The OR of the codes. */
  ghost function Flags(mods: seq<ModText>, flags: bv16): bv16 {
    if mods == [] then flags else Flags(mods[1..], Or(flags, Code(mods[0].word, |mods| == 1)))
  }

  /** Some word does not fit the buffer. */
  ghost predicate SomeLong(mods: seq<ModText>) {
    exists k :: 0 <= k < |mods| && |mods[k].word| >= 128
  }

  /** Where the loop ends: behind an unknown last word, else one character further, which must exist. */
  ghost function LoopEnd(mods: seq<ModText>, flags: bv16, tail: string): Mods
    requires mods != []
  {
    if !Known(mods[|mods| - 1].word) then Mods(tail, Flags(mods, flags))
    else if tail == "" then NoMods
    else Mods(tail[1..], Flags(mods, flags))
  }

  lemma ApartMeans(s: string)
    ensures Apart(s) <==> TokenLen(s) == 0
  {
  }

  /** A pass, given what it finds. */
  lemma PassFinds(s: string, a: string, w: string, rest: string, flags: bv16)
    requires SkipBlanks(s) == a && ModEnd(a) == |w| <= |a| && a[|w|..] == rest
    requires Clip(a, |w|) == if |w| < 128 then Some(w) else None
    ensures |w| >= 128 ==> ModPass(s, flags) == Bad
    ensures |w| < 128 && ModOf(w) != MOD_MAX ==> ModPass(s, flags) == AfterMod(rest, Or(flags, ModOf(w)))
    ensures |w| < 128 && ModOf(w) == MOD_MAX ==> ModPass(s, flags) == Pass(rest, flags, |w| < TokenLen(a))
  {
    hide SkipBlanks, ModEnd, Clip, ModOf, AfterMod, Or, TokenLen;
  }

  /** What a pass finds where a word stands that ends with its token, or at a comma. */
  lemma PassName(before: string, w: string, rest: string)
    requires Blanks(before) && |w| < 256 && Solid(w) && NoComma(w) && (w == "" && rest != "" ==> !Blank(rest[0]))
    requires Apart(rest) || (rest[0] == ',' && TokenLen(w + rest) < 256)
    ensures var a := w + rest;
      && SkipBlanks(before + a) == a && ModEnd(a) == |w| && a[|w|..] == rest
      && Clip(a, |w|) == if |w| < 128 then Some(w) else None
  {
    hide SkipBlanks, TokenLen, ModEnd, Clip, Blanks, Solid, Apart, NoComma;
    SkipOf(before, w + rest);
    NotStop(w, rest);
    NameEnds(w, rest);
    Front(w, rest);
    Behind(w, rest);
    ClipUnwrapped(w + rest, |w|);
  }

  lemma NotStop(w: string, rest: string)
    requires Solid(w) && (w == "" && rest != "" ==> !Blank(rest[0]))
    ensures SkipBlanks(w + rest) == w + rest
  {
    var a := w + rest;
    assert a != "" ==> a[0] == if w == "" then rest[0] else w[0];
  }

  lemma NoBlanks(s: string)
    requires s != "" && !Blank(s[0])
    ensures SkipBlanks(s) == s
  {
  }

  lemma NameEnds(w: string, rest: string)
    requires |w| < 256 && Solid(w) && NoComma(w)
    requires Apart(rest) || (rest[0] == ',' && TokenLen(w + rest) < 256)
    ensures ModEnd(w + rest) == |w|
  {
    hide TokenLen, Solid, Comma;
    TokenOf(w, rest);
    ApartMeans(rest);
    var a := w + rest;
    var n := TokenLen(a);
    if Apart(rest) {
      assert a[..n] == w + "";
      CommaOf(w, "");
    } else {
      var t := rest[..n - |w|];
      assert a[..n % 256] == w + t;
      CommaOf(w, t);
      CommaFirst(t);
    }
  }

  lemma CommaFirst(s: string)
    requires s != "" && s[0] == ','
    ensures Comma(s) == 0
  {
  }

  lemma RunsBehind(a: string, b: string, n: nat)
    requires Runs(a + b, n)
    ensures Runs(b, n) && TokenLen(b) < n
  {
    Behind(a, b);
    RunsSuffix(a + b, n, |a|);
  }

  lemma RunsPrinted(m: ModText, more: string, n: nat)
    requires Runs(m.before + (m.word + (m.after + ("," + more))), n) && Solid(m.word)
    ensures Runs(more, n) && TokenLen(m.word + (m.after + ("," + more))) < n && TokenLen("," + more) < n && |m.word| < n
  {
    hide *;
    RunsBehind(m.before, m.word + (m.after + ("," + more)), n);
    RunsBehind(m.word, m.after + ("," + more), n);
    RunsBehind(m.after, "," + more, n);
    RunsBehind(",", more, n);
    TokenOf(m.word, m.after + ("," + more));
  }

  lemma RunsLast(m: ModText, tail: string, n: nat)
    requires Runs(m.before + (m.word + tail), n) && Solid(m.word)
    ensures |m.word| < n
  {
    hide *;
    RunsBehind(m.before, m.word + tail, n);
    TokenOf(m.word, tail);
  }

  lemma CommaCons(more: string)
    ensures var c := "," + more; c != "" && c[0] == ',' && !Blank(c[0]) && c[1..] == more
  {
  }

  lemma AfterCases(s: string, flags: bv16)
    ensures var c := SkipBlanks(s);
      && (c != "" && c[0] == ',' ==> AfterMod(s, flags) == Pass(c[1..], flags, true))
      && (c == "" || c[0] != ',' ==> AfterMod(s, flags) == if s == "" then Bad else Pass(s[1..], flags, false))
  {
    hide SkipBlanks;
  }

  lemma AfterComma(blanks: string, more: string, flags: bv16)
    requires Blanks(blanks)
    ensures AfterMod(blanks + ("," + more), flags) == Pass(more, flags, true)
  {
    hide *;
    CommaCons(more);
    SkipOf(blanks, "," + more);
    NoBlanks("," + more);
    AfterCases(blanks + ("," + more), flags);
  }

  /** The loop goes on behind a known word and its comma. */
  lemma KnownBeforeComma(m: ModText, more: string, flags: bv16)
    requires ModThenComma(m) && |m.word| < 128 && Known(m.word) && TokenLen(m.word + (m.after + ("," + more))) < 256
    ensures ParseMods(m.before + (m.word + (m.after + ("," + more))), flags)
         == ParseMods(more, Or(flags, ModOf(m.word)))
  {
    hide ModPass, AfterMod, SkipBlanks, TokenLen, ModOf, Or, Blanks, Apart, Solid, NoComma, ModEnd, Clip;
    var rest := m.after + ("," + more);
    var s := m.before + (m.word + rest);
    CommaRest(m, more);
    PassName(m.before, m.word, rest);
    PassFinds(s, m.word + rest, m.word, rest, flags);
    AfterComma(m.after, more, Or(flags, ModOf(m.word)));
    PassAdvances(s, flags);
  }

  lemma CommaRest(m: ModText, more: string)
    requires ModThenComma(m)
    ensures var rest := m.after + ("," + more);
      && (Apart(rest) || rest[0] == ',') && (m.word == "" ==> !Blank(rest[0]))
  {
  }

  /** An unknown word before a comma is not just skipped: the loop goes on at the comma itself, reads an
      empty word there, and that counts as EDGE_RISING. */
  lemma UnknownBeforeComma(before: string, w: string, more: string, flags: bv16)
    requires Blanks(before) && |w| < 128 && Solid(w) && NoComma(w) && !Known(w)
    requires TokenLen(w + ("," + more)) < 256 && TokenLen("," + more) < 256
    ensures ParseMods(before + (w + ("," + more)), flags) == ParseMods(more, Or(flags, RISE))
  {
    hide ModPass, SkipBlanks, TokenLen, ModOf, Or, Solid, Blanks, NoComma, ModEnd, Clip;
    var comma := "," + more;
    var s := before + (w + comma);
    PassName(before, w, comma);
    PassFinds(s, w + comma, w, comma, flags);
    TokenOf(w, comma);
    CommaToken(comma);
    CommaPass(more, flags);
    PassAdvances(s, flags);
    PassAdvances(comma, flags);
  }

  lemma CommaToken(s: string)
    requires s != "" && s[0] == ','
    ensures TokenLen(s) > 0
  {
  }

  lemma CommaPass(more: string, flags: bv16)
    requires TokenLen("," + more) < 256
    ensures ModPass("," + more, flags) == Pass(more, Or(flags, RISE), true)
  {
    hide SkipBlanks, TokenLen, ModOf, Or, ModEnd, Clip, AfterMod;
    var comma := "," + more;
    CommaEnds(comma);
    EmptyIsRising();
    NoBlanks(comma);
    ClipNothing(comma);
    CommaNext(comma, Or(flags, RISE));
    Behind(",", more);
    assert comma[0..] == comma;
  }

  lemma CommaNext(s: string, flags: bv16)
    requires s != "" && s[0] == ','
    ensures AfterMod(s, flags) == Pass(s[1..], flags, true)
  {
    NoBlanks(s);
  }

  lemma CommaEnds(s: string)
    requires s != "" && s[0] == ',' && TokenLen(s) < 256
    ensures ModEnd(s) == 0
  {
    CommaFirst(s[..TokenLen(s)]);
  }

  lemma LongBefore(before: string, w: string, rest: string, flags: bv16)
    requires Blanks(before) && 128 <= |w| < 256 && Solid(w) && NoComma(w)
    requires Apart(rest) || (rest[0] == ',' && TokenLen(w + rest) < 256)
    ensures ParseMods(before + (w + rest), flags) == NoMods
  {
    hide ModPass, SkipBlanks, TokenLen, Blanks, Apart, Solid, NoComma, ModEnd, Clip;
    PassName(before, w, rest);
    PassFinds(before + (w + rest), w + rest, w, rest, flags);
  }

  lemma StepPrinted(m: ModText, more: string, flags: bv16)
    requires ModThenComma(m) && Runs(m.before + (m.word + (m.after + ("," + more))), 256)
    ensures ParseMods(m.before + (m.word + (m.after + ("," + more))), flags)
         == if |m.word| >= 128 then NoMods else ParseMods(more, Or(flags, Code(m.word, false)))
    ensures Runs(more, 256)
  {
    hide ParseMods, TokenLen, ModOf, Or, Runs, Blanks, Solid, NoComma, Apart;
    RunsPrinted(m, more, 256);
    if |m.word| >= 128 {
      CommaRest(m, more);
      LongBefore(m.before, m.word, m.after + ("," + more), flags);
    } else if Known(m.word) {
      KnownBeforeComma(m, more, flags);
    } else {
      assert m.after + ("," + more) == "," + more;
      UnknownBeforeComma(m.before, m.word, more, flags);
    }
  }

  lemma LastPrinted(m: ModText, flags: bv16, tail: string)
    requires LastMod(m, tail) && |m.word| < 256
    ensures ParseMods(m.before + (m.word + tail), flags)
         == if |m.word| >= 128 then NoMods else LoopEnd([m], flags, tail)
  {
    hide ModPass, AfterMod, SkipBlanks, TokenLen, ModOf, Or, Blanks, Apart, Solid, NoComma, ModEnd, Clip;
    hide LoopEnd, Flags;
    if |m.word| >= 128 {
      LongBefore(m.before, m.word, tail, flags);
    } else {
      var s := m.before + (m.word + tail);
      PassName(m.before, m.word, tail);
      PassFinds(s, m.word + tail, m.word, tail, flags);
      TokenOf(m.word, tail);
      ApartMeans(tail);
      OneLoopEnd(m, flags, tail);
      NoMore(tail, Or(flags, ModOf(m.word)), Known(m.word));
    }
  }

  lemma OneLoopEnd(m: ModText, flags: bv16, tail: string)
    ensures !Known(m.word) ==> LoopEnd([m], flags, tail) == Mods(tail, flags)
    ensures Known(m.word) && tail == "" ==> LoopEnd([m], flags, tail) == NoMods
    ensures Known(m.word) && tail != "" ==> LoopEnd([m], flags, tail) == Mods(tail[1..], Or(flags, ModOf(m.word)))
  {
    hide ModOf, Or;
    OrZero(flags);
    assert [m][1..] == [];
    assert Flags([m], flags) == Flags([], Or(flags, Code(m.word, true))) == Or(flags, Code(m.word, true));
  }

  lemma OrZero(flags: bv16)
    ensures Or(flags, 0) == flags
  {
  }

  lemma NoMore(tail: string, flags: bv16, known: bool)
    requires known && SkipBlanks(tail) != "" ==> SkipBlanks(tail)[0] != ','
    ensures known ==> AfterMod(tail, flags) == if tail == "" then Bad else Pass(tail[1..], flags, false)
  {
    hide SkipBlanks;
  }

  lemma PrintTwo(mods: seq<ModText>, tail: string)
    requires |mods| > 1
    ensures PrintMods(mods) + tail
         == mods[0].before + (mods[0].word + (mods[0].after + ("," + (PrintMods(mods[1..]) + tail))))
  {
    var r := PrintMods(mods[1..]);
    Assoc(",", r, tail);
    Assoc(mods[0].after, "," + r, tail);
    Assoc(mods[0].word, mods[0].after + ("," + r), tail);
    Assoc(mods[0].before, mods[0].word + (mods[0].after + ("," + r)), tail);
  }

  lemma LoopEndCons(mods: seq<ModText>, flags: bv16, tail: string)
    requires |mods| > 1
    ensures LoopEnd(mods, flags, tail) == LoopEnd(mods[1..], Or(flags, Code(mods[0].word, false)), tail)
    ensures ModList(mods, tail) ==> ModThenComma(mods[0]) && ModList(mods[1..], tail)
    ensures SomeLong(mods) <==> |mods[0].word| >= 128 || SomeLong(mods[1..])
  {
    hide Or, Code, ModThenComma, LastMod, Known;
    assert mods[1..][|mods| - 2] == mods[|mods| - 1];
    assert forall k :: 1 <= k < |mods| ==> mods[k] == mods[1..][k - 1];
    assert forall k :: 0 <= k < |mods| - 1 ==> mods[1..][k] == mods[k + 1];
  }

  /** What the modifier loop makes of any modifier list without runs of 256 characters: it fails if a word
      does not fit the buffer, and else ends where LoopEnd says. */
  lemma {:induction false} ModsPrinted(mods: seq<ModText>, flags: bv16, tail: string)
    requires ModList(mods, tail) && Runs(PrintMods(mods) + tail, 256)
    ensures ParseMods(PrintMods(mods) + tail, flags) == if SomeLong(mods) then NoMods else LoopEnd(mods, flags, tail)
    decreases |mods|
  {
    hide ParseMods, LoopEnd, ModThenComma, LastMod, Or, Runs, Code, SomeLong;
    var m := mods[0];
    if |mods| == 1 {
      OneLong(mods, tail);
      assert mods == [m];
      Assoc(m.before, m.word, tail);
      RunsLast(m, tail, 256);
      LastPrinted(m, flags, tail);
    } else {
      PrintTwo(mods, tail);
      LoopEndCons(mods, flags, tail);
      StepPrinted(m, PrintMods(mods[1..]) + tail, flags);
      ModsPrinted(mods[1..], Or(flags, Code(m.word, false)), tail);
    }
  }

  lemma OneLong(mods: seq<ModText>, tail: string)
    requires |mods| == 1
    ensures SomeLong(mods) <==> |mods[0].word| >= 128
    ensures ModList(mods, tail) ==> Solid(mods[0].word)
  {
    hide Solid;
    assert mods[0] == mods[|mods| - 1];
  }

  /** In a text with short tokens every word of a modifier list is short. */
  lemma {:induction false} NoneLong(mods: seq<ModText>, tail: string)
    requires ModList(mods, tail) && Runs(PrintMods(mods) + tail, 128)
    ensures !SomeLong(mods)
    decreases |mods|
  {
    hide LoopEnd, Or, Runs, Code, SomeLong, Solid;
    var m := mods[0];
    if |mods| == 1 {
      OneLong(mods, tail);
      Assoc(m.before, m.word, tail);
      RunsLast(m, tail, 128);
    } else {
      PrintTwo(mods, tail);
      LoopEndCons(mods, 0, tail);
      RunsPrinted(m, PrintMods(mods[1..]) + tail, 128);
      NoneLong(mods[1..], tail);
    }
  }

  // ---------------------------------------------------------------- every text is a modifier list

  lemma Parts(s: string)
    ensures var a := SkipBlanks(s);
      var b := s[..|s| - |a|];
      s == b + a && Blanks(b) && (a != "" ==> !Blank(a[0]))
  {
    hide SkipBlanks;
    SkipBlanksIs(s);
    Halves(s, |s| - |SkipBlanks(s)|);
  }

  lemma TokenParts(a: string)
    ensures var n := TokenLen(a);
      var k := Comma(a[..n]);
      && Solid(a[..n]) && Apart(a[n..]) && a == a[..n] + a[n..]
      && k <= n && Solid(a[..k]) && NoComma(a[..k]) && (k < n ==> a[k] == ',' && a == a[..k] + ("," + a[k + 1..]))
  {
    hide TokenLen, Comma, Solid, NoComma, Apart;
    var n := TokenLen(a);
    var w := a[..n];
    var k := Comma(w);
    TokenSolid(a);
    Halves(a, n);
    CommaIs(w);
    CommaCut(w);
    assert w[..k] == a[..k];
    SolidPrefix(w, k);
    if k < n {
      assert w[k] == a[k];
      Halves(a, k);
      CommaSplit(a[k..]);
      assert a[k..][1..] == a[k + 1..];
    }
  }

  lemma TokenSolid(a: string)
    ensures Solid(a[..TokenLen(a)]) && Apart(a[TokenLen(a)..])
  {
    hide TokenLen;
    TokenLenIs(a);
  }

  lemma CommaCut(w: string)
    ensures NoComma(w[..Comma(w)])
  {
    hide Comma;
    CommaIs(w);
  }

  lemma SolidPrefix(w: string, k: nat)
    requires Solid(w) && k <= |w|
    ensures Solid(w[..k])
  {
  }

  /** The first modifier of a text, and whether a comma follows it. */
  lemma First(s: string) returns (m: ModText, more: bool, rest: string)
    requires Runs(s, 256)
    ensures Runs(rest, 256)
    ensures more ==> ModThenComma(m) && s == m.before + (m.word + (m.after + ("," + rest))) && |rest| < |s|
    ensures !more ==> LastMod(m, rest) && s == m.before + (m.word + rest)
  {
    hide *;
    var a := SkipBlanks(s);
    Parts(s);
    SkipRuns(s, 256);
    m, more, rest := FirstToken(s[..|s| - |a|], a);
  }

  lemma FirstToken(before: string, a: string) returns (m: ModText, more: bool, rest: string)
    requires Blanks(before) && Runs(a, 256) && (a != "" ==> !Blank(a[0]))
    ensures Runs(rest, 256)
    ensures more ==> ModThenComma(m) && before + a == m.before + (m.word + (m.after + ("," + rest))) && |rest| < |a|
    ensures !more ==> LastMod(m, rest) && before + a == m.before + (m.word + rest)
  {
    hide TokenLen, Comma, SkipBlanks, Runs, Solid, NoComma, Blanks, ModOf, Known, Apart, ModThenComma, LastMod;
    RunsFirst(a, 256);
    TokenParts(a);
    var n := TokenLen(a);
    var k := Comma(a[..n]);
    if k < n {
      RunsSuffix(a, 256, k + 1);
      WordThenComma(before, a[..k], a[k + 1..]);
      return ModText(before, a[..k], ""), true, a[k + 1..];
    }
    assert a[..k] == a[..n];
    RunsSuffix(a, 256, n);
    EmptyToken(a);
    m, more, rest := FirstWord(before, a[..n], a[n..]);
  }

  lemma WordThenComma(before: string, w: string, rest: string)
    requires Blanks(before) && Solid(w) && NoComma(w)
    ensures var m := ModText(before, w, "");
      ModThenComma(m) && before + (w + ("," + rest)) == before + (w + (m.after + ("," + rest)))
  {
    assert "" + ("," + rest) == "," + rest;
  }

  /** The first modifier when no comma lies inside its token. */
  lemma FirstWord(before: string, word: string, t: string) returns (m: ModText, more: bool, rest: string)
    requires Blanks(before) && Solid(word) && NoComma(word) && Apart(t) && Runs(t, 256)
    requires word == "" && t != "" ==> SkipBlanks(t) == t && !Blank(t[0]) && t[0] != ','
    ensures Runs(rest, 256)
    ensures more ==> ModThenComma(m) && |rest| < |t|
    ensures more ==> before + (word + t) == m.before + (m.word + (m.after + ("," + rest)))
    ensures !more ==> LastMod(m, rest) && before + (word + t) == m.before + (m.word + rest)
  {
    hide *;
    var c := SkipBlanks(t);
    if Known(word) && c != "" && c[0] == ',' {
      m, rest := SpacedComma(before, word, t);
      more := true;
    } else {
      m, more, rest := ModText(before, word, ""), false, t;
      FirstIsLast(before, word, t);
    }
  }

  lemma FirstIsLast(before: string, word: string, t: string)
    requires Blanks(before) && Solid(word) && NoComma(word) && Apart(t)
    requires word == "" && t != "" ==> !Blank(t[0])
    requires Known(word) && SkipBlanks(t) != "" ==> SkipBlanks(t)[0] != ','
    ensures LastMod(ModText(before, word, ""), t)
  {
    hide SkipBlanks, Solid, NoComma, Apart, Known;
  }

  /** Behind a known word the comma may follow after blanks. */
  lemma SpacedComma(before: string, word: string, t: string) returns (m: ModText, rest: string)
    requires Blanks(before) && Solid(word) && NoComma(word) && Known(word) && Runs(t, 256)
    requires word == "" && t != "" ==> SkipBlanks(t) == t && t[0] != ','
    requires SkipBlanks(t) != "" && SkipBlanks(t)[0] == ','
    ensures Runs(rest, 256) && ModThenComma(m) && |rest| < |t|
    ensures before + (word + t) == m.before + (m.word + (m.after + ("," + rest)))
  {
    hide SkipBlanks, Runs, Solid, NoComma, Blanks, Known;
    var c := SkipBlanks(t);
    Parts(t);
    SkipRuns(t, 256);
    RunsSuffix(c, 256, 1);
    CommaSplit(c);
    assert |c| <= |t|;
    rest := c[1..];
    m := ModText(before, word, t[..|t| - |c|]);
  }

  /** Every text without runs of 256 characters is a modifier list and a tail: what the loop takes it for. */
  lemma {:induction false} Split(s: string) returns (mods: seq<ModText>, tail: string)
    requires Runs(s, 256)
    ensures mods != [] && ModList(mods, tail) && s == PrintMods(mods) + tail
    decreases |s|
  {
    hide Runs, ModThenComma, LastMod, ModList, PrintMods;
    var m, more, rest := First(s);
    if more {
      var ms;
      ms, tail := Split(rest);
      mods := SplitCons(m, rest, ms, tail);
    } else {
      mods, tail := [m], rest;
      SplitOne(m, tail);
    }
  }

  lemma SplitOne(m: ModText, tail: string)
    requires LastMod(m, tail)
    ensures ModList([m], tail) && PrintMods([m]) + tail == m.before + (m.word + tail)
  {
    hide LastMod;
    Assoc(m.before, m.word, tail);
  }

  lemma EmptyToken(a: string)
    requires a != "" ==> !Blank(a[0])
    ensures TokenLen(a) == 0 && a != "" ==> SkipBlanks(a) == a && Stop(a[0]) && a[0] != ','
    ensures TokenLen(a) == 0 ==> a[TokenLen(a)..] == a
  {
  }

  lemma CommaSplit(c: string)
    requires c != "" && c[0] == ','
    ensures c == "," + c[1..]
  {
  }

  lemma SplitCons(m: ModText, rest: string, ms: seq<ModText>, tail: string) returns (mods: seq<ModText>)
    requires ModThenComma(m) && ms != [] && ModList(ms, tail) && rest == PrintMods(ms) + tail
    ensures mods != [] && ModList(mods, tail)
    ensures PrintMods(mods) + tail == m.before + (m.word + (m.after + ("," + rest)))
  {
    hide ModThenComma, LastMod;
    mods := [m] + ms;
    assert mods[1..] == ms;
    PrintTwo(mods, tail);
  }

  // ---------------------------------------------------------------- where the loop leaves the text

  /** A modifier list and a rest that make up s. */
  ghost predicate Reads(s: string, mods: seq<ModText>, tail: string) {
    mods != [] && ModList(mods, tail) && s == PrintMods(mods) + tail
  }

  /** The text is a modifier list to its very end, and the last word is a known one. */
  ghost predicate EndsInModifier(s: string) {
    exists mods: seq<ModText> :: Reads(s, mods, "") && Known(mods[|mods| - 1].word)
  }

  lemma RunsMore(s: string, n: nat, m: nat)
    requires Runs(s, n) && n <= m
    ensures Runs(s, m)
  {
  }

  /** The modifier loop runs past the end of a text with short tokens exactly when the text ends in a
      modifier. */
  lemma LoopLeaves(s: string, flags: bv16)
    requires Runs(s, 128)
    ensures ParseMods(s, flags) == NoMods <==> EndsInModifier(s)
  {
    hide ParseMods, ModList, PrintMods, Runs, Flags, Known, SomeLong;
    RunsMore(s, 128, 256);
    if EndsInModifier(s) {
      var mods: seq<ModText> :| Reads(s, mods, "") && Known(mods[|mods| - 1].word);
      NoneLong(mods, "");
      ModsPrinted(mods, flags, "");
    } else {
      var mods, tail := Split(s);
      assert Reads(s, mods, tail);
      NoneLong(mods, tail);
      ModsPrinted(mods, flags, tail);
    }
  }

  predicate OneLine(s: string) {
    forall k :: 0 <= k < |s| ==> s[k] != '\n'
  }

  lemma {:induction false} ModsOneLine(mods: seq<ModText>, tail: string)
    requires ModList(mods, tail)
    ensures OneLine(PrintMods(mods))
    decreases |mods|
  {
    if |mods| > 1 {
      LoopEndCons(mods, 0, tail);
      ModsOneLine(mods[1..], tail);
      var m, r := mods[0], PrintMods(mods[1..]);
      assert OneMod(m);
      hide PrintMods;
      assert OneLine("," + r);
      assert OneLine(m.after + ("," + r));
      assert OneLine(m.word + (m.after + ("," + r)));
    }
  }

  // ---------------------------------------------------------------- what the flags mean

  lemma OrBits(a: bv16, b: bv16)
    ensures Bit(Or(a, b), 1) <==> Bit(a, 1) || Bit(b, 1)
    ensures Bit(Or(a, b), 2) <==> Bit(a, 2) || Bit(b, 2)
    ensures Bit(Or(a, b), 4) <==> Bit(a, 4) || Bit(b, 4)
    ensures a < 8 && b < 8 ==> Or(a, b) < 8
  {
  }

  predicate Unknown(w: string) {
    !(w <= "EDGE_RISING" || w <= "EDGE_FALLING" || w <= "EDGE_BOTH" || w <= "NO_LOOP" || w <= "ONESHOT")
  }

  /** The word stands for rising edges: so do all prefixes of "EDGE_", and an unknown word before a comma. */
  predicate Rises(w: string, last: bool) {
    w <= "EDGE_RISING" || w <= "EDGE_BOTH" || w <= "ONESHOT" || (Unknown(w) && !last)
  }

  predicate Falls(w: string) {
    !(w <= "EDGE_RISING") && (w <= "EDGE_FALLING" || w <= "EDGE_BOTH")
  }

  predicate Holds(w: string) {
    w != "" && (w <= "NO_LOOP" || w <= "ONESHOT")
  }

  ghost predicate SomeRises(mods: seq<ModText>) {
    exists k :: 0 <= k < |mods| && Rises(mods[k].word, k == |mods| - 1)
  }

  ghost predicate SomeFalls(mods: seq<ModText>) {
    exists k :: 0 <= k < |mods| && Falls(mods[k].word)
  }

  ghost predicate SomeHolds(mods: seq<ModText>) {
    exists k :: 0 <= k < |mods| && Holds(mods[k].word)
  }

  lemma SomeCons(mods: seq<ModText>)
    requires mods != []
    ensures SomeRises(mods) <==> Rises(mods[0].word, |mods| == 1) || SomeRises(mods[1..])
    ensures SomeFalls(mods) <==> Falls(mods[0].word) || SomeFalls(mods[1..])
    ensures SomeHolds(mods) <==> Holds(mods[0].word) || SomeHolds(mods[1..])
  {
    hide Rises, Falls, Holds;
    assert forall k :: 1 <= k < |mods| ==> mods[k] == mods[1..][k - 1];
    if SomeRises(mods) {
      var k :| 0 <= k < |mods| && Rises(mods[k].word, k == |mods| - 1);
      assert k > 0 ==> Rises(mods[1..][k - 1].word, k - 1 == |mods[1..]| - 1);
    }
  }

  /** A prefix of two words ends where they differ. */
  lemma Common(w: string, a: string, b: string, c: string, i: nat)
    requires i < |a| && i < |b| && a[i] != b[i] && i <= |c| && c[..i] == a[..i]
    ensures w <= a && w <= b ==> |w| <= i && w <= c
  {
    assert forall k :: 0 <= k < i ==> c[..i][k] == c[k] && a[..i][k] == a[k];
  }

  lemma CodeBits(w: string, last: bool)
    ensures Bit(Code(w, last), 1) <==> Rises(w, last)
    ensures Bit(Code(w, last), 2) <==> Falls(w)
    ensures Bit(Code(w, last), 4) <==> Holds(w)
    ensures Code(w, last) < 8
  {
    CodeBySpelling(w);
    NamesDiffer(w);
    hide ModOf;
  }

  /** No word is a prefix of two names, except for the prefixes of "EDGE_". */
  lemma NamesDiffer(w: string)
    ensures w <= "EDGE_FALLING" && (w <= "EDGE_BOTH" || w <= "NO_LOOP" || w <= "ONESHOT") ==> w <= "EDGE_RISING"
    ensures w <= "EDGE_BOTH" && (w <= "NO_LOOP" || w <= "ONESHOT") ==> w == ""
    ensures w <= "NO_LOOP" && (w <= "ONESHOT" || w <= "EDGE_RISING" || w <= "EDGE_FALLING") ==> w == ""
    ensures w <= "ONESHOT" && (w <= "EDGE_RISING" || w <= "EDGE_FALLING") ==> w == ""
  {
    Common(w, "EDGE_FALLING", "EDGE_BOTH", "EDGE_RISING", 5);
    Common(w, "EDGE_FALLING", "NO_LOOP", "EDGE_RISING", 0);
    Common(w, "EDGE_FALLING", "ONESHOT", "EDGE_RISING", 0);
    Common(w, "EDGE_BOTH", "NO_LOOP", "", 0);
    Common(w, "EDGE_BOTH", "ONESHOT", "", 0);
    Common(w, "EDGE_RISING", "NO_LOOP", "", 0);
    Common(w, "EDGE_RISING", "ONESHOT", "", 0);
    Common(w, "NO_LOOP", "ONESHOT", "", 0);
  }

  /** What the flags of a modifier list mean, by spelling, whatever the words are. */
  lemma {:induction false} FlagsMean(mods: seq<ModText>, flags: bv16)
    ensures Bit(Flags(mods, flags), 1) <==> Bit(flags, 1) || SomeRises(mods)
    ensures Bit(Flags(mods, flags), 2) <==> Bit(flags, 2) || SomeFalls(mods)
    ensures Bit(Flags(mods, flags), 4) <==> Bit(flags, 4) || SomeHolds(mods)
    ensures flags < 8 ==> Flags(mods, flags) < 8
  {
    if mods != [] {
      var w, last := mods[0].word, |mods| == 1;
      SomeCons(mods);
      OrBits(flags, Code(w, last));
      CodeBits(w, last);
      hide Or, Code, Bit, SomeRises, SomeFalls, SomeHolds, Rises, Falls, Holds;
      FlagsMean(mods[1..], Or(flags, Code(w, last)));
    }
  }

  ghost predicate Occurs(mods: seq<ModText>, name: string) {
    exists k :: 0 <= k < |mods| && mods[k].word == name
  }

  predicate FourNames(w: string) {
    w == "EDGE_RISING" || w == "EDGE_FALLING" || w == "EDGE_BOTH" || w == "NO_LOOP"
  }

  lemma NameMeans(w: string, last: bool)
    requires FourNames(w)
    ensures Rises(w, last) <==> w == "EDGE_RISING" || w == "EDGE_BOTH"
    ensures Falls(w) <==> w == "EDGE_FALLING" || w == "EDGE_BOTH"
    ensures Holds(w) <==> w == "NO_LOOP"
  {
    assert "EDGE_RISING"[5] == 'R' && "EDGE_FALLING"[5] == 'F' && "EDGE_BOTH"[5] == 'B';
    assert "NO_LOOP"[0] == 'N' && "ONESHOT"[0] == 'O';
  }

  /** The number a list of names stands for: 1 if EDGE_RISING or EDGE_BOTH occurs, 2 if EDGE_FALLING or
      EDGE_BOTH does, 4 if NO_LOOP does, added up. */
  lemma NamedFlags(mods: seq<ModText>)
    requires forall k :: 0 <= k < |mods| ==> FourNames(mods[k].word)
    ensures Number(Flags(mods, 0)) ==
      (if Occurs(mods, "EDGE_RISING") || Occurs(mods, "EDGE_BOTH") then 1 else 0)
      + (if Occurs(mods, "EDGE_FALLING") || Occurs(mods, "EDGE_BOTH") then 2 else 0)
      + (if Occurs(mods, "NO_LOOP") then 4 else 0)
  {
    hide *;
    WhichOccur(mods);
    FlagsMean(mods, 0);
    NoBits();
    BitsAddUp(Flags(mods, 0));
  }

  lemma WhichOccur(mods: seq<ModText>)
    requires forall k :: 0 <= k < |mods| ==> FourNames(mods[k].word)
    ensures SomeRises(mods) <==> Occurs(mods, "EDGE_RISING") || Occurs(mods, "EDGE_BOTH")
    ensures SomeFalls(mods) <==> Occurs(mods, "EDGE_FALLING") || Occurs(mods, "EDGE_BOTH")
    ensures SomeHolds(mods) <==> Occurs(mods, "NO_LOOP")
  {
    forall k | 0 <= k < |mods|
      ensures Rises(mods[k].word, k == |mods| - 1) <==> mods[k].word == "EDGE_RISING" || mods[k].word == "EDGE_BOTH"
      ensures Falls(mods[k].word) <==> mods[k].word == "EDGE_FALLING" || mods[k].word == "EDGE_BOTH"
      ensures Holds(mods[k].word) <==> mods[k].word == "NO_LOOP"
    {
      NameMeans(mods[k].word, k == |mods| - 1);
    }
    hide Rises, Falls, Holds, FourNames;
  }

  lemma NoBits()
    ensures !Bit(0, 1) && !Bit(0, 2) && !Bit(0, 4)
  {
  }
}
