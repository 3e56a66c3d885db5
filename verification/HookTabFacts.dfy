/** What parsing a hook tab promises: printed lines come back, it is known exactly which lines are not
    safe, and what the parser can never produce. */
module HookTabFacts {
  import opened Seqs
  import opened Hooks
  import opened Options
  import opened HookLife
  import opened HookTab
  import opened HookTabMods
  import opened FlagBits
  import HookDispatch

  // ---------------------------------------------------------------- what the flags can be

  lemma CodesFit(word: string)
    ensures ModOf(word) == MOD_MAX || ModOf(word) in {1, 2, 3, 4, 5}
  {
  }

  lemma OrKeeps(a: bv16, b: bv16)
    requires a & ONESHOT == 0 && (b == 1 || b == 2 || b == 3 || b == 4 || b == 5)
    ensures Or(a, b) & ONESHOT == 0
  {
  }

  lemma PassNotOneShot(s: string, flags: bv16)
    requires flags & ONESHOT == 0
    ensures var p := ModPass(s, flags); p.Pass? ==> p.flags & ONESHOT == 0
  {
    hide SkipBlanks, TokenLen, ModEnd, Clip, ModOf, Or;
    var word := Clip(SkipBlanks(s), ModEnd(SkipBlanks(s)));
    if word.Some? {
      CodesFit(word.value);
      if ModOf(word.value) != MOD_MAX {
        OrKeeps(flags, ModOf(word.value));
      }
    }
  }

  lemma {:induction false} ModsNotOneShot(s: string, flags: bv16)
    requires flags & ONESHOT == 0
    ensures var m := ParseMods(s, flags); m.Mods? ==> m.flags & ONESHOT == 0
    decreases |s|
  {
    hide ModPass;
    PassNotOneShot(s, flags);
    var p := ModPass(s, flags);
    if p.Pass? && p.more {
      PassAdvances(s, flags);
      ModsNotOneShot(p.rest, p.flags);
    }
  }

  /** No line of any tab, well formed or not, yields a hook with the ONESHOT flag: the name is accepted,
      but its code is 5, which reads as RISE and NO_LOOP. */
  lemma NeverOneShot(line: string, labels: seq<string>)
    ensures var o := ParseLine(line, labels); o.Hooked? ==> o.text.flags & ONESHOT == 0
    ensures ModOf("ONESHOT") == RISE | NO_LOOP
  {
    OneShotCode();
    hide SkipBlanks, TokenLen, Clip, ParseMods, FirstMatch, ParseArgs, ModOf;
    var a := SkipBlanks(line);
    ModsNotOneShot(a[TokenLen(a)..], 0);
  }

  lemma OneShotCode()
    ensures ModOf("ONESHOT") == RISE | NO_LOOP
  {
    NameFacts(4);
  }

  // ---------------------------------------------------------------- where the parser is safe

  lemma {:induction false} ArgsSafe(s: string)
    requires Runs(s, 128)
    ensures ParseArgs(s).Some?
    decreases |s|
  {
    hide SkipBlanks, TokenLen, Clip, Runs, ArgOf;
    FirstShort(s);
    var a := SkipBlanks(s);
    if TokenLen(a) > 0 {
      ArgsSafe(a[TokenLen(a)..]);
    }
  }

  lemma HookSafe(s: string, pin: nat, flags: bv16)
    requires Runs(s, 128)
    ensures ParseHook(s, pin, flags).Hooked?
  {
    hide SkipBlanks, TokenLen, Clip, Runs, ParseArgs;
    FirstShort(s);
    ArgsSafe(SkipBlanks(s)[TokenLen(SkipBlanks(s))..]);
  }

  /** Exactly when a line with tokens that fit the buffer is not safe: its label names a pin, and behind the
      label the line is a list of modifiers to its very end. */
  lemma UnsafeShort(line: string, labels: seq<string>)
    requires Runs(line, 128)
    ensures var a := SkipBlanks(line);
      var n := TokenLen(a);
      ParseLine(line, labels) == Unsafe <==> FirstMatch(a[..n], labels) < |labels| && EndsInModifier(a[n..])
  {
    hide SkipBlanks, TokenLen, Clip, Runs, ParseMods, ParseHook, FirstMatch, EndsInModifier;
    FirstShort(line);
    var a := SkipBlanks(line);
    var n := TokenLen(a);
    var rest := a[n..];
    LoopLeaves(rest, 0);
    var m := ParseMods(rest, 0);
    if m.Mods? {
      ModsShort(rest, 0);
      HookSafe(m.rest, FirstMatch(a[..n], labels), m.flags);
    }
  }

  predicate OnLine(s: string) {
    forall k :: 0 <= k < |s| ==> s[k] != '\n' && s[k] != '\r'
  }

  /** Before its first line end the text has a token that does not fit the buffer. */
  ghost predicate LongToken(s: string) {
    exists k :: 0 <= k <= |s| && OnLine(s[..k]) && TokenLen(s[k..]) >= 128
  }

  lemma LongBehind(front: string, s: string)
    requires OnLine(front) && forall k :: 0 <= k < |front| ==> TokenLen((front + s)[k..]) < 128
    ensures LongToken(front + s) <==> LongToken(s)
  {
    hide TokenLen;
    var t := front + s;
    if LongToken(t) {
      var k :| 0 <= k <= |t| && OnLine(t[..k]) && TokenLen(t[k..]) >= 128;
      var j := k - |front|;
      assert s[j..] == t[k..];
      assert forall i :: 0 <= i < j ==> s[..j][i] == t[..k][i + |front|];
    }
    if LongToken(s) {
      var j :| 0 <= j <= |s| && OnLine(s[..j]) && TokenLen(s[j..]) >= 128;
      var k := j + |front|;
      assert s[j..] == t[k..];
      assert t[..k] == front + s[..j];
    }
  }

  lemma LongBehindBlanks(blanks: string, s: string)
    requires Blanks(blanks)
    ensures LongToken(blanks + s) <==> LongToken(s)
  {
    hide LongToken;
    LongBehind(blanks, s);
  }

  lemma LongBehindWord(w: string, s: string)
    requires Solid(w) && |w| < 128 && Apart(s)
    ensures LongToken(w + s) <==> LongToken(s)
  {
    hide LongToken, TokenLen;
    ApartMeans(s);
    forall k | 0 <= k < |w|
      ensures TokenLen((w + s)[k..]) < 128
    {
      assert (w + s)[k..] == w[k..] + s;
      TokenOf(w[k..], s);
    }
    LongBehind(w, s);
  }

  lemma LongFirst(s: string)
    ensures TokenLen(s) >= 128 ==> LongToken(s)
    ensures TokenLen(s) == 0 && (s != "" ==> !Blank(s[0])) ==> !LongToken(s)
  {
    assert s[0..] == s && s[..0] == "";
    if TokenLen(s) == 0 && s != "" && !Blank(s[0]) {
      assert forall k :: 0 < k <= |s| ==> s[..k][0] == s[0];
    }
  }

  /** The argument loop overruns its buffer exactly when a token ahead of the line end is too long. */
  lemma {:induction false} ArgsExactly(s: string)
    requires Runs(s, 256)
    ensures ParseArgs(s) == None <==> LongToken(s)
    decreases |s|
  {
    hide *;
    var a := SkipBlanks(s);
    var n := TokenLen(a);
    Parts(s);
    LongBehindBlanks(s[..|s| - |a|], a);
    SkipRuns(s, 256);
    RunsFirst(a, 256);
    ClipUnwrapped(a, n);
    LongFirst(a);
    ArgsUnfold(s);
    if 0 < n < 128 {
      TokenParts(a);
      LongBehindWord(a[..n], a[n..]);
      RunsSuffix(a, 256, n);
      ArgsExactly(a[n..]);
    }
  }

  lemma ArgsUnfold(s: string)
    ensures var a := SkipBlanks(s);
      var n := TokenLen(a);
      ParseArgs(s) == None <==> Clip(a, n) == None || (n > 0 && ParseArgs(a[n..]) == None)
  {
    hide SkipBlanks, TokenLen, Clip;
  }

  lemma HookUnfold(s: string, pin: nat, flags: bv16)
    ensures ParseHook(s, pin, flags) == Unsafe <==> ParseArgs(s) == None
  {
    hide SkipBlanks, TokenLen, Clip;
  }

  /** What goes wrong on a line whose label names a pin, given the modifiers the loop reads and the text
      behind them: a word does not fit the buffer, nothing follows a known last word, or a token of what
      is left for path and arguments does not fit. */
  ghost predicate GoesWrong(mods: seq<ModText>, tail: string)
    requires mods != []
  {
    || SomeLong(mods)
    || (if Known(mods[|mods| - 1].word) then tail == "" || LongToken(tail[1..]) else LongToken(tail))
  }

  lemma ReadsWrong(s: string, mods: seq<ModText>, tail: string, pin: nat)
    requires Reads(s, mods, tail) && Runs(s, 256)
    ensures var m := ParseMods(s, 0);
      GoesWrong(mods, tail) <==> m == NoMods || ParseHook(m.rest, pin, m.flags) == Unsafe
  {
    hide ParseMods, ModList, PrintMods, Runs, Flags, Known, SomeLong, ParseHook, LongToken;
    ModsPrinted(mods, 0, tail);
    RunsBehind(PrintMods(mods), tail, 256);
    if !SomeLong(mods) {
      if !Known(mods[|mods| - 1].word) {
        ArgsExactly(tail);
        HookUnfold(tail, pin, Flags(mods, 0));
      } else if tail != "" {
        RunsSuffix(tail, 256, 1);
        ArgsExactly(tail[1..]);
        HookUnfold(tail[1..], pin, Flags(mods, 0));
      }
    }
  }

  /** Read as modifiers and a rest, the text goes wrong. */
  ghost predicate Overruns(s: string) {
    exists mods, tail :: Reads(s, mods, tail) && GoesWrong(mods, tail)
  }

  lemma OverrunsExactly(s: string, pin: nat)
    requires Runs(s, 256)
    ensures var m := ParseMods(s, 0); Overruns(s) <==> m == NoMods || ParseHook(m.rest, pin, m.flags) == Unsafe
  {
    hide ParseMods, ParseHook, ModList, PrintMods, Runs, GoesWrong;
    if Overruns(s) {
      var mods, tail :| Reads(s, mods, tail) && GoesWrong(mods, tail);
      ReadsWrong(s, mods, tail, pin);
    } else {
      var mods, tail := Split(s);
      assert Reads(s, mods, tail);
      ReadsWrong(s, mods, tail, pin);
    }
  }

  /** Exactly when a line is not safe, for all lines whose token lengths fit the 8-bit variable: the label
      does not fit the buffer, or it names a pin and something goes wrong behind it. */
  lemma UnsafeExactly(line: string, labels: seq<string>)
    requires Runs(line, 256)
    ensures var a := SkipBlanks(line);
      var n := TokenLen(a);
      ParseLine(line, labels) == Unsafe <==> n >= 128 || (FirstMatch(a[..n], labels) < |labels| && Overruns(a[n..]))
  {
    hide SkipBlanks, TokenLen, Clip, Runs, ParseMods, ParseHook, FirstMatch, Overruns;
    var a := SkipBlanks(line);
    var n := TokenLen(a);
    SkipRuns(line, 256);
    RunsFirst(a, 256);
    ClipUnwrapped(a, n);
    RunsSuffix(a, 256, n);
    OverrunsExactly(a[n..], FirstMatch(a[..n], labels));
  }

  /** Lines as getline delivers them, except a last one without a newline. */
  predicate Terminated(s: string) {
    s != "" && s[|s| - 1] == '\n'
  }

  lemma {:induction false} SkipTerminated(s: string)
    requires Terminated(s)
    ensures Terminated(SkipBlanks(s))
  {
    if Blank(s[0]) {
      SkipTerminated(s[1..]);
    }
  }

  lemma {:induction false} TokenTerminated(s: string)
    requires Terminated(s)
    ensures Terminated(s[TokenLen(s)..])
  {
    if !Stop(s[0]) {
      TokenTerminated(s[1..]);
      assert s[1..][TokenLen(s[1..])..] == s[TokenLen(s)..];
    }
  }

  /** On a newline-terminated line with tokens under 128 characters the parser never reads past the NUL
      and never writes past its buffer. */
  lemma LineSafe(line: string, labels: seq<string>)
    requires Terminated(line) && Runs(line, 128)
    ensures ParseLine(line, labels) != Unsafe
  {
    hide SkipBlanks, TokenLen, Runs, ParseLine, FirstMatch, EndsInModifier;
    UnsafeShort(line, labels);
    var a := SkipBlanks(line);
    SkipTerminated(line);
    TokenTerminated(a);
    NotToTheEnd(a[TokenLen(a)..]);
  }

  /** No modifier holds a newline. */
  lemma NotToTheEnd(s: string)
    requires Terminated(s)
    ensures !EndsInModifier(s)
  {
    hide ModList, Known, PrintMods;
    if EndsInModifier(s) {
      var mods: seq<ModText> :| Reads(s, mods, "") && Known(mods[|mods| - 1].word);
      ModsOneLine(mods, "");
      assert false;
    }
  }

  /** A line without a newline that ends in a modifier: the cursor passes the NUL. */
  lemma CutShort()
    ensures ParseLine("A NO_LOOP", ["A"]) == Unsafe
  {
    hide ParseMods, SkipBlanks, TokenLen, FirstMatch, Clip, ModList, PrintMods, Known, Runs, Flags, SomeLong;
    OneName();
    OneLong([ModText(" ", "NO_LOOP", "")], "");
    ModsPrinted([ModText(" ", "NO_LOOP", "")], 0, "");
    FirstLabel();
  }

  lemma OneName()
    ensures var mods := [ModText(" ", "NO_LOOP", "")];
      && Known("NO_LOOP") && ModList(mods, "") && PrintMods(mods) + "" == " NO_LOOP" && Runs(" NO_LOOP", 256)
  {
    hide ModOf, Solid, NoComma, TokenLen;
    NameFacts(3);
    assert MODIFIERS[3] == "NO_LOOP";
  }

  lemma FirstLabel()
    ensures SkipBlanks("A NO_LOOP") == "A NO_LOOP" && TokenLen("A NO_LOOP") == 1 && "A NO_LOOP"[1..] == " NO_LOOP"
    ensures Clip("A NO_LOOP", 1) == Some("A") && FirstMatch("A", ["A"]) == 0
  {
    hide SkipBlanks, TokenLen;
    var s := "A NO_LOOP";
    assert s == "A" + " NO_LOOP" && s[..1] == "A";
    NoBlanks(s);
    TokenOf("A", " NO_LOOP");
    ApartMeans(" NO_LOOP");
    Behind("A", " NO_LOOP");
  }

  // ---------------------------------------------------------------- arguments and whole lines

  /** A word in print: one non-empty token that fits the buffer. */
  ghost predicate Word(w: string) {
    w != "" && |w| < 128 && Solid(w)
  }

  /** A special argument is printed as its two characters; a literal must not be read as special. */
  ghost function PrintArg(arg: Arg): string {
    match arg.kind
    case ArgLabel => "$@"
    case ArgEventText => "$%"
    case ArgEventNum => "$&"
    case ArgMax => if arg.text.Some? then arg.text.value else ""
  }

  ghost predicate Literal(w: string) {
    Word(w) && w !in ["$", "$@", "$%", "$&"]
  }

  ghost predicate PrintableArg(arg: Arg) {
    if arg.kind == ArgMax then arg.text.Some? && Literal(arg.text.value) else arg.text.None?
  }

  lemma NotSpecial(w: string, c: char)
    requires w != "" && w != "$" && w != ['$', c]
    ensures !(w <= ['$', c])
  {
    if |w| == 1 {
      assert w == [w[0]];
    } else if |w| == 2 {
      assert w == [w[0], w[1]];
    }
  }

  lemma ArgBack(arg: Arg)
    requires PrintableArg(arg)
    ensures Word(PrintArg(arg)) && ArgOf(PrintArg(arg)) == arg
  {
    var w := PrintArg(arg);
    match arg.kind
    case ArgLabel =>
      FirstMatchIs(w, SPECIALS, 0);
    case ArgEventText =>
      assert w[1] != SPECIALS[0][1];
      FirstMatchIs(w, SPECIALS, 1);
    case ArgEventNum =>
      assert w[1] != SPECIALS[0][1] && w[1] != SPECIALS[1][1];
      FirstMatchIs(w, SPECIALS, 2);
    case ArgMax =>
      NotSpecial(w, '@');
      NotSpecial(w, '%');
      NotSpecial(w, '&');
      assert KindOf(w) == ArgMax;
  }

  ghost predicate Gap(s: string) {
    s != "" && Blanks(s)
  }

  ghost function PrintArgs(gaps: seq<string>, args: seq<Arg>, end: string): string
    requires |gaps| == |args|
  {
    if args == [] then end else gaps[0] + (PrintArg(args[0]) + PrintArgs(gaps[1..], args[1..], end))
  }

  /** What may end a line: blanks and then anything that is no token. */
  ghost predicate EndsLine(end: string) {
    Apart(end) && TokenLen(SkipBlanks(end)) == 0
  }

  lemma PrintArgsApart(gaps: seq<string>, args: seq<Arg>, end: string)
    requires |gaps| == |args| && Apart(end) && forall k :: 0 <= k < |gaps| ==> Gap(gaps[k])
    ensures Apart(PrintArgs(gaps, args, end))
  {
    if args != [] {
      assert Gap(gaps[0]);
      assert Stop(gaps[0][0]);
    }
  }

  /** The token behind a gap. */
  lemma NextWord(gap: string, w: string, rest: string)
    requires Blanks(gap) && Word(w) && Apart(rest)
    ensures var a := SkipBlanks(gap + (w + rest));
      a == w + rest && TokenLen(a) == |w| && Clip(a, |w|) == Some(w) && a[|w|..] == rest
  {
    hide SkipBlanks, TokenLen, Clip, Word, Blanks, Apart;
    SkipOf(gap, w + rest);
    WordStarts(w, rest);
    NoBlanks(w + rest);
    WordEnds(w, rest);
  }

  lemma WordEnds(w: string, rest: string)
    requires Word(w) && Apart(rest)
    ensures var a := w + rest; TokenLen(a) == |w| && Clip(a, |w|) == Some(w) && a[|w|..] == rest
  {
    hide TokenLen, Solid, Apart;
    TokenOf(w, rest);
    ApartMeans(rest);
    Behind(w, rest);
    Front(w, rest);
  }

  lemma WordStarts(w: string, rest: string)
    requires Word(w)
    ensures w + rest != "" && !Blank((w + rest)[0])
  {
  }

  lemma ArgPrinted(gap: string, arg: Arg, rest: string)
    requires Gap(gap) && PrintableArg(arg) && Apart(rest)
    ensures ParseArgs(gap + (PrintArg(arg) + rest)) == Prepend([arg], ParseArgs(rest))
  {
    hide SkipBlanks, TokenLen, Clip, ArgOf, PrintArg, Blanks, Word, Apart, PrintableArg;
    ArgBack(arg);
    var w := PrintArg(arg);
    NonEmpty(w);
    NextWord(gap, w, rest);
  }

  lemma {:induction false} ArgsPrinted(gaps: seq<string>, args: seq<Arg>, end: string)
    requires |gaps| == |args| && (forall k :: 0 <= k < |gaps| ==> Gap(gaps[k]))
    requires (forall k :: 0 <= k < |args| ==> PrintableArg(args[k])) && EndsLine(end)
    ensures ParseArgs(PrintArgs(gaps, args, end)) == Some(args + [Arg(ArgMax, None)])
    decreases |args|
  {
    hide SkipBlanks, TokenLen, PrintArg, PrintableArg, ParseArgs, Gap, EndsLine, Apart;
    if args == [] {
      LastArg(end);
      assert args + [Arg(ArgMax, None)] == [Arg(ArgMax, None)];
    } else {
      EndApart(end);
      PrintArgsApart(gaps[1..], args[1..], end);
      ArgPrinted(gaps[0], args[0], PrintArgs(gaps[1..], args[1..], end));
      ArgsPrinted(gaps[1..], args[1..], end);
      ConsSnoc(args, Arg(ArgMax, None));
    }
  }

  lemma LastArg(end: string)
    requires EndsLine(end)
    ensures ParseArgs(end) == Some([Arg(ArgMax, None)])
  {
    hide SkipBlanks, TokenLen, Clip, ArgOf;
    NullArg(SkipBlanks(end));
  }

  lemma NonEmpty(w: string)
    requires Word(w)
    ensures |w| > 0
  {
  }

  lemma NullArg(s: string)
    ensures Clip(s, 0) == Some("") && ArgOf("") == Arg(ArgMax, None)
  {
  }

  /** A line in print. `lead` and the gaps are blanks. */
  datatype LineText = LineText(lead: string, name: string, mods: seq<ModText>, gap: string, path: string,
                               gaps: seq<string>, args: seq<Arg>, end: string)

  ghost predicate PrintableLine(l: LineText) {
    && Blanks(l.lead) && Word(l.name)
    && l.mods != [] && Gap(l.mods[0].before) && (forall k :: 0 <= k < |l.mods| - 1 ==> ModThenComma(l.mods[k]))
    && OneMod(l.mods[|l.mods| - 1]) && l.mods[|l.mods| - 1].word != ""
    && (forall k :: 0 <= k < |l.mods| ==> |l.mods[k].word| < 128)
    && Gap(l.gap) && Word(l.path) && l.path[0] != ','
    && |l.gaps| == |l.args| && (forall k :: 0 <= k < |l.gaps| ==> Gap(l.gaps[k]))
    && (forall k :: 0 <= k < |l.args| ==> PrintableArg(l.args[k]))
    && EndsLine(l.end)
  }

  ghost function PrintTail(l: LineText): string
    requires PrintableLine(l)
  {
    l.gap + (l.path + PrintArgs(l.gaps, l.args, l.end))
  }

  ghost function Print(l: LineText): string
    requires PrintableLine(l)
  {
    l.lead + (l.name + (PrintMods(l.mods) + PrintTail(l)))
  }

  /** Path and arguments are read back from any number of blanks before the path. */
  lemma HookPrinted(l: LineText, gap: string, pin: nat, flags: bv16)
    requires PrintableLine(l) && Blanks(gap)
    ensures ParseHook(gap + (l.path + PrintArgs(l.gaps, l.args, l.end)), pin, flags)
         == Hooked(pin, Text(l.path, flags, l.args + [Arg(ArgMax, None)]))
  {
    hide SkipBlanks, TokenLen, Clip, Word, EndsLine, ParseArgs, PrintableArg, Gap, Apart, PrintArgs;
    hide OneMod, ModThenComma, Blanks;
    var rest := PrintArgs(l.gaps, l.args, l.end);
    EndApart(l.end);
    PrintArgsApart(l.gaps, l.args, l.end);
    NonEmpty(l.path);
    NextWord(gap, l.path, rest);
    ArgsPrinted(l.gaps, l.args, l.end);
  }

  lemma EndApart(end: string)
    requires EndsLine(end)
    ensures Apart(end)
  {
  }

  lemma TailStart(l: LineText)
    requires PrintableLine(l)
    ensures PrintTail(l) != "" && PrintTail(l)[1..] == l.gap[1..] + (l.path + PrintArgs(l.gaps, l.args, l.end))
    ensures ModList(l.mods, PrintTail(l)) && Blanks(l.gap[1..]) && Blanks(l.gap)
  {
    hide SkipBlanks, PrintArgs, EndsLine, Word, PrintableArg, OneMod, ModThenComma, Known;
    var rest := PrintArgs(l.gaps, l.args, l.end);
    var b := l.path + rest;
    SkipOf(l.gap, b);
    WordStarts(l.path, rest);
    NonEmpty(l.path);
    NoBlanks(b);
    DropOne(l.gap, b);
    assert Stop(l.gap[0]);
  }

  lemma DropOne(gap: string, b: string)
    requires Gap(gap)
    ensures (gap + b)[1..] == gap[1..] + b && Blanks(gap[1..]) && gap + b != "" && (gap + b)[0] == gap[0]
  {
  }

  lemma ModsApart(mods: seq<ModText>, tail: string)
    requires mods != [] && Gap(mods[0].before)
    ensures Apart(PrintMods(mods) + tail)
  {
    assert Stop(mods[0].before[0]);
  }

  /** Round trip: a printed line is read as the hook it was printed from, on the pin whose label it
      names, provided no earlier pin's label starts with that name. */
  lemma RoundTrip(l: LineText, labels: seq<string>, pin: nat)
    requires PrintableLine(l) && Runs(PrintMods(l.mods) + PrintTail(l), 256)
    requires pin < |labels| && labels[pin] == l.name && forall k :: 0 <= k < pin ==> !(l.name <= labels[k])
    ensures ParseLine(Print(l), labels) == Hooked(pin, Text(l.path, Flags(l.mods, 0), l.args + [Arg(ArgMax, None)]))
  {
    hide SkipBlanks, TokenLen, Clip, Word, PrintMods, Runs, FirstMatch, Flags, ParseMods, ParseHook;
    hide ModList, PrintArgs, Known;
    var tail := PrintTail(l);
    var rest := PrintMods(l.mods) + tail;
    ModsApart(l.mods, tail);
    NextWord(l.lead, l.name, rest);
    FirstMatchIs(l.name, labels, pin);
    TailStart(l);
    ModsPrinted(l.mods, 0, tail);
    HookPrinted(l, l.gap, pin, Flags(l.mods, 0));
    HookPrinted(l, l.gap[1..], pin, Flags(l.mods, 0));
  }

  // ---------------------------------------------------------------- whole tabs

  /** The line is in print, and its name is that of the pin. */
  ghost predicate LineFor(l: LineText, labels: seq<string>, pin: nat) {
    && PrintableLine(l) && Runs(PrintMods(l.mods) + PrintTail(l), 256)
    && pin < |labels| && labels[pin] == l.name && forall k :: 0 <= k < pin ==> !(l.name <= labels[k])
  }

  /** What the flags of a printed line are, by the names on it. */
  lemma NamesBack(l: LineText, labels: seq<string>, pin: nat)
    requires LineFor(l, labels, pin) && forall k :: 0 <= k < |l.mods| ==> FourNames(l.mods[k].word)
    ensures PrintableLine(l)
    ensures var o := ParseLine(Print(l), labels);
      && o.Hooked? && o.pin == pin
      && Number(o.text.flags) ==
        (if Occurs(l.mods, "EDGE_RISING") || Occurs(l.mods, "EDGE_BOTH") then 1 else 0)
        + (if Occurs(l.mods, "EDGE_FALLING") || Occurs(l.mods, "EDGE_BOTH") then 2 else 0)
        + (if Occurs(l.mods, "NO_LOOP") then 4 else 0)
  {
    hide PrintableLine, Print, PrintMods, PrintTail, Runs, ParseLine, Occurs, FourNames, Number;
    RoundTrip(l, labels, pin);
    NamedFlags(l.mods);
  }

  ghost function TextOf(l: LineText): Text {
    Text(l.path, Flags(l.mods, 0), l.args + [Arg(ArgMax, None)])
  }

  ghost function PrintTab(ls: seq<LineText>): (r: seq<string>)
    requires forall i :: 0 <= i < |ls| ==> PrintableLine(ls[i])
    ensures |r| == |ls| && forall i :: 0 <= i < |ls| ==> r[i] == Print(ls[i])
  {
    if ls == [] then [] else [Print(ls[0])] + PrintTab(ls[1..])
  }

  /** The hooks that the lines describe for pin k, from the first line to the last. */
  ghost function Described(ls: seq<LineText>, pins: seq<nat>, k: nat): seq<Text>
    requires |pins| == |ls|
  {
    if ls == [] then [] else (if pins[0] == k then [TextOf(ls[0])] else []) + Described(ls[1..], pins[1..], k)
  }

  lemma {:induction false} TextsConcat(a: seq<string>, b: seq<string>, labels: seq<string>, k: nat)
    ensures TextsFor(a + b, labels, k) == TextsFor(a, labels, k) + TextsFor(b, labels, k)
    decreases |b|
  {
    hide TextFor;
    if b == [] {
      assert a + b == a;
    } else {
      var n := |b| - 1;
      assert (a + b)[..|a| + n] == a + b[..n];
      TextsConcat(a, b[..n], labels, k);
      assert (a + b)[|a| + n] == b[n];
    }
  }

  lemma OneText(line: string, labels: seq<string>, k: nat)
    ensures TextsFor([line], labels, k) ==
      if ParseLine(line, labels).Hooked? && ParseLine(line, labels).pin == k then [ParseLine(line, labels).text] else []
  {
    hide ParseLine;
    assert [line][..0] == [];
  }

  /** Round trip of a tab: every pin gets exactly the hooks that its printed lines describe, in their order. */
  lemma {:induction false} TabBack(ls: seq<LineText>, pins: seq<nat>, labels: seq<string>, k: nat)
    requires |pins| == |ls| && forall i :: 0 <= i < |ls| ==> LineFor(ls[i], labels, pins[i])
    ensures forall i :: 0 <= i < |ls| ==> PrintableLine(ls[i])
    ensures TextsFor(PrintTab(ls), labels, k) == Described(ls, pins, k)
    decreases |ls|
  {
    hide PrintableLine, Runs, Print, TextsFor, TextOf, ParseLine, PrintTail, Flags;
    if ls == [] {
      NoTexts(labels, k);
    } else {
      var line := Print(ls[0]);
      TabBack(ls[1..], pins[1..], labels, k);
      RoundTrip(ls[0], labels, pins[0]);
      TextOfIs(ls[0]);
      OneText(line, labels, k);
      TextsConcat([line], PrintTab(ls[1..]), labels, k);
    }
  }

  lemma NoTexts(labels: seq<string>, k: nat)
    ensures TextsFor([], labels, k) == []
  {
  }

  lemma TextOfIs(l: LineText)
    ensures TextOf(l) == Text(l.path, Flags(l.mods, 0), l.args + [Arg(ArgMax, None)])
  {
  }

  // ---------------------------------------------------------------- lines that are not what they seem

  lemma NothingLeft()
    ensures SkipBlanks("") == "" && TokenLen("") == 0 && Clip("", 0) == Some("")
  {
  }

  lemma Newline()
    ensures SkipBlanks("\n") == "\n" && TokenLen("\n") == 0 && ModEnd("\n") == 0
    ensures Clip("\n", 0) == Some("") && "\n"[0..] == "\n" && "\n"[1..] == ""
  {
  }

  lemma NewlineMods()
    ensures ParseMods("\n", 0) == Mods("", RISE)
  {
    hide ModOf, TokenLen, ModEnd, SkipBlanks, Clip;
    Newline();
    EmptyIsRising();
    assert Or(0, RISE) == RISE;
    hide Or;
    assert AfterMod("\n", RISE) == Pass("", RISE, false);
  }

  /** A blank line is not skipped: its empty label is a prefix of the first pin's, and its empty
      modifier of EDGE_RISING, so the first pin gets a rising hook with an empty path. */
  lemma BlankLine(blanks: string, labels: seq<string>)
    requires Blanks(blanks) && labels != []
    ensures ParseLine(blanks + "\n", labels) == Hooked(0, Text("", RISE, []))
  {
    hide SkipBlanks, TokenLen, Clip, ParseMods;
    SkipOf(blanks, "\n");
    Newline();
    NothingLeft();
    NewlineMods();
    assert "" <= labels[0];
  }

  // ---------------------------------------------------------------- from the line to argv

  /** The null entry that ends an argument list. */
  predicate IsNull(arg: Arg) {
    arg.kind == ArgMax && arg.text.None?
  }

  lemma NullOnly(w: string)
    ensures IsNull(ArgOf(w)) <==> w == ""
  {
    hide KindOf;
  }

  lemma {:induction false} ArgsShape(s: string)
    requires Runs(s, 128) && ParseArgs(s).Some?
    ensures OneNull(ParseArgs(s).value)
    decreases |s|
  {
    hide Runs, TokenLen, SkipBlanks, ArgOf, Clip, IsNull, OneNull;
    FirstShort(s);
    var a := SkipBlanks(s);
    var n := TokenLen(a);
    NullOnly(a[..n]);
    if n == 0 {
      NullEnds(ArgOf(a[..n]));
    } else {
      ArgsShape(a[n..]);
      NullKept(ArgOf(a[..n]), ParseArgs(a[n..]).value);
    }
  }

  /** The list ends in its only null entry. */
  ghost predicate OneNull(args: seq<Arg>) {
    args != [] && forall k :: 0 <= k < |args| ==> (IsNull(args[k]) <==> k == |args| - 1)
  }

  lemma NullEnds(x: Arg)
    requires IsNull(x)
    ensures OneNull([x])
  {
  }

  lemma NullKept(x: Arg, rest: seq<Arg>)
    requires !IsNull(x) && OneNull(rest)
    ensures OneNull([x] + rest)
  {
  }

  /** The line's last stretch, from which path and arguments are read, is a suffix of it. */
  lemma {:induction false} ModsShort(s: string, flags: bv16)
    requires Runs(s, 128) && ParseMods(s, flags).Mods?
    ensures Runs(ParseMods(s, flags).rest, 128)
    decreases |s|
  {
    hide Runs, ModPass;
    PassShort(s, flags);
    PassAdvances(s, flags);
    var p := ModPass(s, flags);
    if p.more {
      ModsShort(p.rest, p.flags);
    }
  }

  lemma PassShort(s: string, flags: bv16)
    requires Runs(s, 128) && ModPass(s, flags).Pass?
    ensures Runs(ModPass(s, flags).rest, 128)
  {
    hide Runs, SkipBlanks, ModEnd, TokenLen, ModOf, Or, Clip, AfterMod;
    SkipRuns(s, 128);
    var a := SkipBlanks(s);
    var end := ModEnd(a);
    RunsSuffix(a, 128, end);
    var word := Clip(a, end).value;
    if ModOf(word) != MOD_MAX {
      AfterShort(a[end..], Or(flags, ModOf(word)));
    }
  }

  lemma AfterShort(s: string, flags: bv16)
    requires Runs(s, 128) && AfterMod(s, flags).Pass?
    ensures Runs(AfterMod(s, flags).rest, 128)
  {
    hide Runs, SkipBlanks;
    SkipRuns(s, 128);
    var c := SkipBlanks(s);
    if c != "" && c[0] == ',' {
      RunsSuffix(c, 128, 1);
    } else {
      RunsSuffix(s, 128, 1);
    }
  }

  /** End to end: the argument vector of a hook read from a line with short tokens starts with the path,
      and, when the path is not empty, ends with its only null pointer. With an empty path it has no
      null pointer at all. */
  lemma ArgvShape(line: string, labels: seq<string>, name: string, event: int)
    requires Runs(line, 128) && ParseLine(line, labels).Hooked?
    requires event == EVENT_RISING || event == EVENT_FALLING
    ensures var text := ParseLine(line, labels).text;
      var argv := [Some(text.path)] + HookDispatch.Words(text.args, name, event);
      if text.path == "" then argv == [Some("")]
      else forall k :: 0 <= k < |argv| ==> (argv[k] == None <==> k == |argv| - 1)
  {
    hide Runs, TokenLen, SkipBlanks, FirstMatch, ParseMods, Clip, ParseArgs, OneNull, IsNull;
    FirstShort(line);
    var a := SkipBlanks(line);
    ModsShort(a[TokenLen(a)..], 0);
    var rest := ParseMods(a[TokenLen(a)..], 0).rest;
    FirstShort(rest);
    var b := SkipBlanks(rest);
    var m := TokenLen(b);
    if m > 0 {
      ArgsShape(b[m..]);
      WordsShape(b[..m], ParseArgs(b[m..]).value, name, event);
    } else {
      assert HookDispatch.Words([], name, event) == [];
    }
  }

  lemma WordsShape(path: string, args: seq<Arg>, name: string, event: int)
    requires OneNull(args) && (event == EVENT_RISING || event == EVENT_FALLING)
    ensures var argv := [Some(path)] + HookDispatch.Words(args, name, event);
      forall k :: 0 <= k < |argv| ==> (argv[k] == None <==> k == |argv| - 1)
  {
    var words := HookDispatch.Words(args, name, event);
    assert forall k :: 0 <= k < |args| ==> (words[k] == None <==> IsNull(args[k]));
  }
}
