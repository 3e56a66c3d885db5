/** The hook-tab parser. A line is a C string: the characters before its NUL, and a cursor is given by
    the text from it to the end. Lengths pass through an 8-bit variable and tokens through a 128-byte
    buffer; reading past the NUL or writing past the buffer is the outcome Unsafe. */
module HookTab {
  import opened Hooks
  import opened Options

  const MODIFIERS: seq<string> := ["EDGE_RISING", "EDGE_FALLING", "EDGE_BOTH", "NO_LOOP", "ONESHOT"]

  /** What tab_parse_mod returns for each name: its index plus one, which for the last is not a flag. */
  const CODES: seq<bv16> := [1, 2, 3, 4, 5]

  const MOD_MAX: bv16 := 0xff

  const SPECIALS: seq<string> := ["$@", "$%", "$&"]

  const KINDS: seq<ArgKind> := [ArgLabel, ArgEventText, ArgEventNum]

  predicate Blank(c: char) {
    c == ' ' || c == '\t'
  }

  predicate Stop(c: char) {
    Blank(c) || c == '\n' || c == '\r'
  }

  // ---------------------------------------------------------------- cursors

  function SkipBlanks(s: string): (r: string)
    ensures |r| <= |s|
  {
    if s != "" && Blank(s[0]) then SkipBlanks(s[1..]) else s
  }

  lemma {:induction false} SkipBlanksIs(s: string)
    ensures var r := SkipBlanks(s);
      && s[|s| - |r|..] == r
      && (forall k :: 0 <= k < |s| - |r| ==> Blank(s[k]))
      && (r == "" || !Blank(r[0]))
    ensures var n := |s| - |SkipBlanks(s)|;
      && (forall k :: 0 <= k < n ==> s[k] == ' ' || s[k] == '\t')
      && (n < |s| ==> s[n] != ' ' && s[n] != '\t')
  {
    if s != "" && Blank(s[0]) {
      var r := SkipBlanks(s[1..]);
      SkipBlanksIs(s[1..]);
      assert s[|s| - |r|..] == s[1..][|s| - 1 - |r|..];
      assert forall k :: 1 <= k < |s| - |r| ==> s[k] == s[1..][k - 1];
    }
  }

  function TokenLen(s: string): (n: nat)
    ensures n <= |s|
  {
    if s == "" || Stop(s[0]) then 0 else 1 + TokenLen(s[1..])
  }

  lemma {:induction false} TokenLenIs(s: string)
    ensures var n := TokenLen(s); (forall k :: 0 <= k < n ==> !Stop(s[k])) && (n == |s| || Stop(s[n]))
    ensures var n := TokenLen(s);
      && (forall k :: 0 <= k < n ==> s[k] != ' ' && s[k] != '\t' && s[k] != '\n' && s[k] != '\r')
      && (n < |s| ==> s[n] == ' ' || s[n] == '\t' || s[n] == '\n' || s[n] == '\r')
  {
    if s != "" && !Stop(s[0]) {
      TokenLenIs(s[1..]);
      assert forall k :: 1 <= k < TokenLen(s) ==> s[k] == s[1..][k - 1];
    }
  }

  lemma SkipAt(line: string, i: nat)
    requires i <= |line|
    ensures SkipBlanks(line[i..]) == if i < |line| && Blank(line[i]) then SkipBlanks(line[i + 1..]) else line[i..]
  {
    assert i < |line| ==> line[i..][1..] == line[i + 1..];
  }

  /** eat_space */
  method EatSpace(line: string, start: nat) returns (tmp: nat)
    requires start <= |line|
    ensures start <= tmp <= |line| && line[tmp..] == SkipBlanks(line[start..])
  {
    hide SkipBlanks;
    tmp := start;
    while tmp < |line|
      invariant start <= tmp <= |line|
      invariant SkipBlanks(line[tmp..]) == SkipBlanks(line[start..])
    {
      SkipAt(line, tmp);
      if line[tmp] == ' ' || line[tmp] == '\t' {
        tmp := tmp + 1;
        continue;
      }
      break;
    }
    SkipAt(line, tmp);
  }

  /** next_space */
  method NextSpace(line: string, start: nat) returns (tmp: nat)
    requires start <= |line|
    ensures tmp == start + TokenLen(line[start..])
  {
    tmp := start;
    while tmp < |line|
      invariant start <= tmp <= |line|
      invariant tmp + TokenLen(line[tmp..]) == start + TokenLen(line[start..])
    {
      if line[tmp] == ' ' || line[tmp] == '\t' || line[tmp] == '\n' || line[tmp] == '\r' {
        break;
      }
      assert line[tmp..][1..] == line[tmp + 1..];
      tmp := tmp + 1;
    }
  }

  // ---------------------------------------------------------------- matching

  /** The first entry the word is a prefix of, or the size of the table. */
  function FirstMatch(word: string, table: seq<string>): (i: nat)
    ensures i <= |table|
  {
    if table == [] || word <= table[0] then 0 else 1 + FirstMatch(word, table[1..])
  }

  /** The index that a search from the front stops at. */
  lemma {:induction false} FirstMatchIs(word: string, table: seq<string>, i: nat)
    requires i <= |table| && (i < |table| ==> word <= table[i]) && forall k :: 0 <= k < i ==> !(word <= table[k])
    ensures FirstMatch(word, table) == i
  {
    if i > 0 {
      assert !(word <= table[0]);
      FirstMatchIs(word, table[1..], i - 1);
    }
  }

  function ModOf(word: string): bv16 {
    var i := FirstMatch(word, MODIFIERS);
    if i < 5 then CODES[i] else MOD_MAX
  }

  function KindOf(word: string): ArgKind {
    var i := FirstMatch(word, SPECIALS);
    if i < 3 then KINDS[i] else ArgMax
  }

  /** strncmp(value, entry, strlen(value)) == 0 */
  method IsPrefix(value: string, entry: string) returns (yes: bool)
    ensures yes <==> value <= entry
  {
    var k := 0;
    while k < |value|
      invariant k <= |value| && k <= |entry| && value[..k] == entry[..k]
    {
      if k == |entry| || value[k] != entry[k] {
        return false;
      }
      k := k + 1;
    }
    return true;
  }

  /** tab_parse_mod */
  method TabParseMod(value: string) returns (mod: bv16)
    ensures mod == ModOf(value)
  {
    var i := 0;
    while i < |MODIFIERS|
      invariant i <= |MODIFIERS| && forall k :: 0 <= k < i ==> !(value <= MODIFIERS[k])
    {
      var same := IsPrefix(value, MODIFIERS[i]);
      if same {
        FirstMatchIs(value, MODIFIERS, i);
        return CODES[i];
      }
      i := i + 1;
    }
    FirstMatchIs(value, MODIFIERS, i);
    return MOD_MAX;
  }

  /** tab_parse_args */
  method TabParseArgs(value: string) returns (kind: ArgKind)
    ensures kind == KindOf(value)
  {
    for i := 0 to |SPECIALS|
      invariant forall k :: 0 <= k < i ==> !(value <= SPECIALS[k])
    {
      var same := IsPrefix(value, SPECIALS[i]);
      if same {
        FirstMatchIs(value, SPECIALS, i);
        return KINDS[i];
      }
    }
    FirstMatchIs(value, SPECIALS, |SPECIALS|);
    return ArgMax;
  }

  /** find_pin_by_label */
  method FindPin(labels: seq<string>, name: string) returns (i: nat)
    ensures i == FirstMatch(name, labels)
  {
    i := 0;
    while i < |labels|
      invariant i <= |labels| && forall k :: 0 <= k < i ==> !(name <= labels[k])
    {
      var same := IsPrefix(name, labels[i]);
      if same {
        break;
      }
      i := i + 1;
    }
    FirstMatchIs(name, labels, i);
  }

  // ---------------------------------------------------------------- a line, by what is left of it

  /** The token copied into the buffer: n passes through a uint8_t, and must leave room for the NUL. */
  function Clip(s: string, n: nat): Option<string>
    requires n <= |s|
  {
    if n % 256 < 128 then Some(s[..n % 256]) else None
  }

  /** memchr for a comma. */
  function Comma(s: string): (k: nat)
    ensures k <= |s|
  {
    if s == "" || s[0] == ',' then 0 else 1 + Comma(s[1..])
  }

  lemma {:induction false} CommaIs(s: string)
    ensures var k := Comma(s); (k < |s| ==> s[k] == ',') && forall j :: 0 <= j < k ==> s[j] != ','
  {
    if s != "" && s[0] != ',' {
      CommaIs(s[1..]);
      assert forall j :: 1 <= j < Comma(s) ==> s[j] == s[1..][j - 1];
    }
  }

  datatype Pass = Bad | Pass(rest: string, flags: bv16, more: bool)

  /** Where the modifier at the front of a ends: at its comma if one lies within the (8-bit) length. */
  function ModEnd(a: string): (end: nat)
    ensures end <= TokenLen(a)
    ensures end < TokenLen(a) ==> a[end] == ','
  {
    var n := TokenLen(a);
    var k := Comma(a[..n % 256]);
    CommaIs(a[..n % 256]);
    if k < n % 256 then k else n
  }

  /** What follows a known modifier: a comma, blanks before it allowed, asks for another pass; otherwise
      one character is stepped over, whatever it is. */
  function AfterMod(s: string, flags: bv16): Pass {
    var c := SkipBlanks(s);
    if c != "" && c[0] == ',' then Pass(c[1..], flags, true)
    else if s == "" then Bad
    else Pass(s[1..], flags, false)
  }

  function Or(a: bv16, b: bv16): bv16 {
    a | b
  }

  /** One pass of the modifier loop. */
  function ModPass(s: string, flags: bv16): Pass {
    var a := SkipBlanks(s);
    var end := ModEnd(a);
    match Clip(a, end)
    case None => Bad
    case Some(word) =>
      if ModOf(word) == MOD_MAX
      then Pass(a[end..], flags, end < TokenLen(a))
      else AfterMod(a[end..], Or(flags, ModOf(word)))
  }

  lemma EmptyIsRising()
    ensures ModOf("") == RISE && ModOf("") != MOD_MAX && KindOf("") == ArgLabel
  {
  }

  lemma AfterAdvances(s: string, flags: bv16)
    requires AfterMod(s, flags).Pass?
    ensures |AfterMod(s, flags).rest| < |s|
  {
    hide SkipBlanks;
    assert |SkipBlanks(s)| <= |s|;
  }

  /** Every pass moves the cursor forward, the one that `continue`s over an unknown name included. */
  lemma PassAdvances(s: string, flags: bv16)
    requires ModPass(s, flags).Pass?
    ensures |ModPass(s, flags).rest| < |s|
  {
    hide SkipBlanks, TokenLen, ModEnd, ModOf, Clip, AfterMod, Or;
    EmptyIsRising();
    var a := SkipBlanks(s);
    var end := ModEnd(a);
    ClipNothing(a);
    assert |a| <= |s| && end <= |a|;
    var word := Clip(a, end).value;
    if ModOf(word) == MOD_MAX {
      assert word != "";
      assert end > 0;
    } else {
      AfterAdvances(a[end..], Or(flags, ModOf(word)));
    }
  }

  lemma ClipNothing(s: string)
    ensures Clip(s, 0) == Some("")
  {
  }

  datatype Mods = NoMods | Mods(rest: string, flags: bv16)

  /** The modifier loop; the text left over starts at tmp2. */
  function ParseMods(s: string, flags: bv16): Mods
    decreases |s|
  {
    match ModPass(s, flags)
    case Bad => NoMods
    case Pass(rest, f, more) =>
      PassAdvances(s, flags);
      if more then ParseMods(rest, f) else Mods(rest, f)
  }

  /** One stored argument. */
  function ArgOf(word: string): Arg {
    if word == "" then Arg(ArgMax, None)
    else if word[0] == '$' && KindOf(word) != ArgMax then Arg(KindOf(word), None)
    else Arg(ArgMax, Some(word))
  }

  /** The argument loop, entered because the last token was not empty; an empty one ends it, and is
      stored too. */
  function ParseArgs(s: string): Option<seq<Arg>>
    decreases |s|
  {
    var a := SkipBlanks(s);
    var n := TokenLen(a);
    match Clip(a, n)
    case None => None
    case Some(word) =>
      if n == 0 then Some([ArgOf(word)]) else
        match ParseArgs(a[n..])
        case None => None
        case Some(args) => Some([ArgOf(word)] + args)
  }

  datatype Text = Text(path: string, flags: bv16, args: seq<Arg>)

  datatype Outcome = NoPin | Unsafe | Hooked(pin: nat, text: Text)

  function ParseHook(s: string, pin: nat, flags: bv16): Outcome {
    var b := SkipBlanks(s);
    var m := TokenLen(b);
    match Clip(b, m)
    case None => Unsafe
    case Some(path) =>
      if m == 0 then Hooked(pin, Text(path, flags, [])) else
        match ParseArgs(b[m..])
        case None => Unsafe
        case Some(args) => Hooked(pin, Text(path, flags, args))
  }

  function ParseLine(line: string, labels: seq<string>): Outcome {
    var a := SkipBlanks(line);
    var n := TokenLen(a);
    match Clip(a, n)
    case None => Unsafe
    case Some(word) =>
      var pin := FirstMatch(word, labels);
      if pin == |labels| then NoPin else
        match ParseMods(a[n..], 0)
        case NoMods => Unsafe
        case Mods(rest, flags) => ParseHook(rest, pin, flags)
  }

  // ---------------------------------------------------------------- the code of loadTab

  method Memchr(line: string, start: nat, len: nat) returns (coma: int)
    requires start + len <= |line|
    ensures coma == if Comma(line[start..start + len]) < len then start + Comma(line[start..start + len]) else -1
  {
    var i := 0;
    ghost var t := line[start..start + len];
    CommaIs(t);
    while i < len
      invariant i <= len && forall j :: 0 <= j < i ==> t[j] != ','
    {
      assert t[i] == line[start + i];
      if line[start + i] == ',' {
        return start + i;
      }
      i := i + 1;
    }
    return -1;
  }

  /** The buffer: strncpy of `len` characters and a NUL, with no room for more than 127. */
  method Copy(line: string, tmp1: nat, tmp2: nat) returns (word: Option<string>)
    requires tmp1 <= tmp2 <= |line|
    ensures word == Clip(line[tmp1..], tmp2 - tmp1)
  {
    var len := (tmp2 - tmp1) % 256;
    if len < 128 {
      return Some(line[tmp1..][..len]);
    }
    return None;
  }

  /** The end of the modifier at tmp1, and whether a comma is there. */
  method ModifierEnd(line: string, tmp1: nat) returns (tmp2: nat, coma: bool)
    requires tmp1 <= |line|
    ensures tmp2 == tmp1 + ModEnd(line[tmp1..]) && (coma <==> ModEnd(line[tmp1..]) < TokenLen(line[tmp1..]))
  {
    tmp2 := NextSpace(line, tmp1);
    var len := (tmp2 - tmp1) % 256;
    assert line[tmp1..][..len] == line[tmp1..tmp1 + len];
    var found := Memchr(line, tmp1, len);
    coma := found != -1;
    if coma {
      tmp2 := found;
    }
  }

  /** The end of a pass over a known modifier. */
  method StepOver(line: string, start: nat, ghost flags: bv16) returns (ok: bool, tmp2: nat, coma: bool)
    requires start <= |line|
    ensures ok <==> AfterMod(line[start..], flags).Pass?
    ensures ok ==> start < tmp2 <= |line| && AfterMod(line[start..], flags) == Pass(line[tmp2..], flags, coma)
  {
    hide SkipBlanks;
    tmp2, coma := start, false;
    var tmp3 := EatSpace(line, tmp2);
    assert line[start..] != "" ==> line[start..][1..] == line[start + 1..];
    if tmp3 < |line| && line[tmp3] == ',' {
      assert line[tmp3..][1..] == line[tmp3 + 1..];
      tmp2, coma := tmp3, true;
    }
    ok := tmp2 < |line|;
    tmp2 := tmp2 + 1;
  }

  lemma PassCases(s: string, flags: bv16)
    ensures var a := SkipBlanks(s);
      var end := ModEnd(a);
      var word := Clip(a, end);
      && (word.None? ==> ModPass(s, flags) == Bad)
      && (word.Some? && ModOf(word.value) == MOD_MAX ==> ModPass(s, flags) == Pass(a[end..], flags, end < TokenLen(a)))
      && (word.Some? && ModOf(word.value) != MOD_MAX ==>
            ModPass(s, flags) == AfterMod(a[end..], Or(flags, ModOf(word.value))))
    ensures ModPass(s, flags).Pass? ==> |ModPass(s, flags).rest| < |s|
  {
    if ModPass(s, flags).Pass? {
      PassAdvances(s, flags);
    }
    hide SkipBlanks, TokenLen, ModEnd, ModOf, Clip, Or, AfterMod;
  }

  /** One pass of the modifier loop, from the cursor tmp2 and back to it. */
  method ModifierPass(line: string, start: nat, flags: bv16) returns (ok: bool, tmp2: nat, f: bv16, coma: bool)
    requires start <= |line|
    ensures ok <==> ModPass(line[start..], flags).Pass?
    ensures ok ==> start < tmp2 <= |line| && ModPass(line[start..], flags) == Pass(line[tmp2..], f, coma)
  {
    hide *;
    PassCases(line[start..], flags);
    var tmp1 := EatSpace(line, start);
    tmp2, coma := ModifierEnd(line, tmp1);
    assert line[tmp1..][tmp2 - tmp1..] == line[tmp2..];
    f := flags;
    var word := Copy(line, tmp1, tmp2);
    if word.None? {
      return false, tmp2, f, coma;
    }
    var mod := TabParseMod(word.value);
    if mod == MOD_MAX {
      return true, tmp2, f, coma;
    }
    f := Or(flags, mod);
    ok, tmp2, coma := StepOver(line, tmp2, f);
  }

  method Modifiers(line: string, start: nat) returns (ok: bool, tmp2: nat, flags: bv16)
    requires start <= |line|
    ensures ok <==> ParseMods(line[start..], 0).Mods?
    ensures ok ==> tmp2 <= |line| && ParseMods(line[start..], 0) == Mods(line[tmp2..], flags)
  {
    hide ModPass;
    tmp2, flags := start, 0;
    while true
      invariant tmp2 <= |line| && ParseMods(line[tmp2..], flags) == ParseMods(line[start..], 0)
      decreases |line| - tmp2
    {
      var coma;
      ok, tmp2, flags, coma := ModifierPass(line, tmp2, flags);
      if !ok {
        return;
      }
      if !coma {
        break;
      }
    }
  }

  method StoreArg(word: string) returns (arg: Arg)
    ensures arg == ArgOf(word)
  {
    arg := Arg(ArgMax, None);
    if word == "" {
      return;
    }
    if word[0] == '$' {
      var kind := TabParseArgs(word);
      if kind != ArgMax {
        return Arg(kind, None);
      }
    }
    return Arg(ArgMax, Some(word));
  }

  function Prepend<T>(front: seq<T>, rest: Option<seq<T>>): Option<seq<T>> {
    match rest
    case None => None
    case Some(r) => Some(front + r)
  }

  method Arguments(line: string, start: nat) returns (ok: bool, args: seq<Arg>)
    requires start <= |line|
    ensures ok <==> ParseArgs(line[start..]).Some?
    ensures ok ==> ParseArgs(line[start..]) == Some(args)
  {
    hide SkipBlanks, TokenLen, Clip, ArgOf, ParseArgs, Prepend;
    args := [];
    PrependNothing(ParseArgs(line[start..]));
    var more, tmp2 := true, start;
    while more
      invariant tmp2 <= |line|
      invariant more ==> Prepend(args, ParseArgs(line[tmp2..])) == ParseArgs(line[start..])
      invariant !more ==> ParseArgs(line[start..]) == Some(args)
      decreases more, |line| - tmp2
    {
      ArgsStep(line[tmp2..], args);
      var tmp1 := EatSpace(line, tmp2);
      tmp2 := NextSpace(line, tmp1);
      assert line[tmp1..][tmp2 - tmp1..] == line[tmp2..];
      var word := Copy(line, tmp1, tmp2);
      if word.None? {
        return false, args;
      }
      var arg := StoreArg(word.value);
      args := args + [arg];
      more := tmp1 != tmp2;
    }
    ok := true;
  }

  /** One pass of the argument loop, with `front` already stored. */
  lemma ArgsStep(s: string, front: seq<Arg>)
    ensures var a := SkipBlanks(s);
      var n := TokenLen(a);
      var word := Clip(a, n);
      && (word.None? ==> Prepend(front, ParseArgs(s)) == None)
      && (word.Some? && n == 0 ==> Prepend(front, ParseArgs(s)) == Some(front + [ArgOf(word.value)]))
      && (word.Some? && n > 0 ==>
            Prepend(front, ParseArgs(s)) == Prepend(front + [ArgOf(word.value)], ParseArgs(a[n..])))
  {
    hide SkipBlanks, TokenLen, Clip, ArgOf;
    var a := SkipBlanks(s);
    var n := TokenLen(a);
    var word := Clip(a, n);
    if word.Some? {
      PrependOne(front, ArgOf(word.value), ParseArgs(a[n..]));
    }
  }

  lemma PrependNothing<T>(rest: Option<seq<T>>)
    ensures Prepend([], rest) == rest
  {
    if rest.Some? {
      assert [] + rest.value == rest.value;
    }
  }

  lemma PrependOne<T>(front: seq<T>, x: T, rest: Option<seq<T>>)
    ensures rest.Some? ==> Prepend(front + [x], rest) == Prepend(front, Some([x] + rest.value))
    ensures rest.None? ==> Prepend(front + [x], rest) == None
  {
    if rest.Some? {
      assert (front + [x]) + rest.value == front + ([x] + rest.value);
    }
  }

  // ---------------------------------------------------------------- hooks on pins

  class PinTab {
    const name: string
    var hooks: seq<Hook>

    constructor (name: string)
      ensures this.name == name && hooks == []
    {
      this.name, hooks := name, [];
    }
  }

  function Labels(pins: seq<PinTab>): (r: seq<string>)
    ensures |r| == |pins| && forall k :: 0 <= k < |pins| ==> r[k] == pins[k].name
  {
    if pins == [] then [] else [pins[0].name] + Labels(pins[1..])
  }

  /** The text one line adds to pin k, if any. */
  function TextFor(line: string, labels: seq<string>, k: nat): seq<Text> {
    var o := ParseLine(line, labels);
    if o.Hooked? && o.pin == k then [o.text] else []
  }

  /** The texts that a whole tab adds to pin k, in file order. */
  function TextsFor(lines: seq<string>, labels: seq<string>, k: nat): seq<Text> {
    if lines == [] then [] else TextsFor(lines[..|lines| - 1], labels, k) + TextFor(lines[|lines| - 1], labels, k)
  }

  /** What the tab said about each hook. */
  function Texts(hooks: seq<Hook>): (r: seq<Text>)
    ensures |r| == |hooks|
    ensures forall k :: 0 <= k < |hooks| ==> r[k] == Text(hooks[k].path, hooks[k].flags, hooks[k].args)
  {
    if hooks == [] then [] else [Text(hooks[0].path, hooks[0].flags, hooks[0].args)] + Texts(hooks[1..])
  }

  /** `after` is `before` followed by one hook for every text. */
  ghost predicate Extends(after: seq<Hook>, before: seq<Hook>, texts: seq<Text>) {
    before <= after && Texts(after[|before|..]) == texts
  }

  /** The path and the arguments: from the cursor behind the modifiers to the end of the line. */
  method ReadHook(line: string, start: nat, pin: nat, flags: bv16) returns (o: Outcome)
    requires start <= |line|
    ensures o == ParseHook(line[start..], pin, flags)
  {
    hide SkipBlanks, TokenLen, Clip, ParseArgs;
    var tmp1 := EatSpace(line, start);
    var tmp2 := NextSpace(line, tmp1);
    var path := Copy(line, tmp1, tmp2);
    if path.None? {
      return Unsafe;
    }
    assert line[tmp1..][tmp2 - tmp1..] == line[tmp2..];
    var ok, args := true, [];
    if tmp1 != tmp2 {
      ok, args := Arguments(line, tmp2);
    }
    o := if ok then Hooked(pin, Text(path.value, flags, args)) else Unsafe;
  }

  /** The body of the getline loop up to the hook it makes. */
  method ReadLine(line: string, labels: seq<string>) returns (o: Outcome)
    ensures o == ParseLine(line, labels)
  {
    hide SkipBlanks, TokenLen, Clip, ParseMods, ParseHook, FirstMatch;
    var tmp1 := EatSpace(line, 0);
    assert line[0..] == line;
    var tmp2 := NextSpace(line, tmp1);
    var word := Copy(line, tmp1, tmp2);
    if word.None? {
      return Unsafe;
    }
    assert line[tmp1..][tmp2 - tmp1..] == line[tmp2..];
    var pin := FindPin(labels, word.value);
    if pin == |labels| {
      return NoPin;
    }
    var ok, flags;
    ok, tmp2, flags := Modifiers(line, tmp2);
    if !ok {
      return Unsafe;
    }
    o := ReadHook(line, tmp2, pin, flags);
  }

  /** No child of the hook is running and none was ever started. */
  ghost predicate Idle(h: Hook)
    reads h
  {
    h.fired == 0 && h.spawned == -1
  }

  /** The body of the getline loop: at most one hook is added, to the pin its label names; it has not
      fired and no child of it is running. */
  method LoadLine(line: string, pins: seq<PinTab>) returns (safe: bool)
    requires forall i, j :: 0 <= i < j < |pins| ==> pins[i] != pins[j]
    modifies pins
    ensures safe <==> ParseLine(line, Labels(pins)) != Unsafe
    ensures forall k :: 0 <= k < |pins| ==>
      old(pins[k].hooks) <= pins[k].hooks && Extends(pins[k].hooks, old(pins[k].hooks), TextFor(line, Labels(pins), k))
    ensures forall k, i :: 0 <= k < |pins| && |old(pins[k].hooks)| <= i < |pins[k].hooks| ==>
      fresh(pins[k].hooks[i]) && Idle(pins[k].hooks[i])
  {
    hide ParseLine;
    var o := ReadLine(line, Labels(pins));
    PinInRange(line, Labels(pins));
    if o.Hooked? {
      var hook := new Hook(o.text.path, o.text.flags, o.text.args);
      pins[o.pin].hooks := pins[o.pin].hooks + [hook];
    }
    safe := o != Unsafe;
  }

  lemma PinInRange(line: string, labels: seq<string>)
    ensures var o := ParseLine(line, labels); o.Hooked? ==> o.pin < |labels|
  {
    hide SkipBlanks, TokenLen, Clip, ParseMods, ParseArgs;
  }

  /** What n lines have added to the pins' old hooks. */
  ghost predicate Grown(pins: seq<PinTab>, olds: seq<seq<Hook>>, lines: seq<string>, n: nat)
    requires |olds| == |pins| && n <= |lines|
    reads pins
  {
    forall k :: 0 <= k < |pins| ==> Extends(pins[k].hooks, olds[k], TextsFor(lines[..n], Labels(pins), k))
  }

  method LoadNext(lines: seq<string>, n: nat, pins: seq<PinTab>, ghost olds: seq<seq<Hook>>) returns (safe: bool)
    requires forall i, j :: 0 <= i < j < |pins| ==> pins[i] != pins[j]
    requires n < |lines| && |olds| == |pins| && Grown(pins, olds, lines, n)
    modifies pins
    ensures safe <==> ParseLine(lines[n], Labels(pins)) != Unsafe
    ensures Grown(pins, olds, lines, n + 1)
    ensures forall k :: 0 <= k < |pins| ==> old(pins[k].hooks) <= pins[k].hooks
    ensures forall k, i :: 0 <= k < |pins| && |old(pins[k].hooks)| <= i < |pins[k].hooks| ==>
      fresh(pins[k].hooks[i]) && Idle(pins[k].hooks[i])
  {
    hide ParseLine, TextFor, Extends, TextsFor;
    label before:
    safe := LoadLine(lines[n], pins);
    forall k | 0 <= k < |pins|
      ensures Extends(pins[k].hooks, olds[k], TextsFor(lines[..n + 1], Labels(pins), k))
    {
      TextsForSnoc(lines, n, Labels(pins), k);
      ExtendsTwice(pins[k].hooks, old@before(pins[k].hooks), olds[k],
                   TextsFor(lines[..n], Labels(pins), k), TextFor(lines[n], Labels(pins), k));
    }
  }

  lemma TextsForSnoc(lines: seq<string>, n: nat, labels: seq<string>, k: nat)
    requires n < |lines|
    ensures TextsFor(lines[..n + 1], labels, k) == TextsFor(lines[..n], labels, k) + TextFor(lines[n], labels, k)
  {
    assert lines[..n + 1][..n] == lines[..n];
    hide TextFor;
  }

  lemma ExtendsTwice(c: seq<Hook>, b: seq<Hook>, a: seq<Hook>, s: seq<Text>, t: seq<Text>)
    requires Extends(b, a, s) && Extends(c, b, t)
    ensures Extends(c, a, s + t)
  {
    hide Texts;
    assert c[|a|..] == b[|a|..] + c[|b|..];
    TextsAppend(b[|a|..], c[|b|..]);
  }

  lemma TextsAppend(a: seq<Hook>, b: seq<Hook>)
    ensures Texts(a + b) == Texts(a) + Texts(b)
  {
  }

  /** loadTab: every line is handled on its own, and each pin's new hooks keep the file's order. They are
      new objects that have not fired and have no child. */
  method LoadTab(lines: seq<string>, pins: seq<PinTab>) returns (safe: bool)
    requires forall i, j :: 0 <= i < j < |pins| ==> pins[i] != pins[j]
    modifies pins
    ensures safe <==> forall n :: 0 <= n < |lines| ==> ParseLine(lines[n], Labels(pins)) != Unsafe
    ensures safe ==> forall k :: 0 <= k < |pins| ==>
      Extends(pins[k].hooks, old(pins[k].hooks), TextsFor(lines, Labels(pins), k))
    ensures forall k :: 0 <= k < |pins| ==> old(pins[k].hooks) <= pins[k].hooks
    ensures forall k, i :: 0 <= k < |pins| && |old(pins[k].hooks)| <= i < |pins[k].hooks| ==>
      fresh(pins[k].hooks[i]) && Idle(pins[k].hooks[i])
  {
    hide *;
    ghost var olds := HooksOf(pins);
    assert lines[..0] == [] && lines[..|lines|] == lines;
    var n := 0;
    StartGrown(pins, olds, lines);
    while n < |lines|
      invariant n <= |lines| && Grown(pins, olds, lines, n)
      invariant forall i :: 0 <= i < n ==> ParseLine(lines[i], Labels(pins)) != Unsafe
      invariant forall k :: 0 <= k < |pins| ==> olds[k] <= pins[k].hooks
      invariant forall k, i :: 0 <= k < |pins| && |olds[k]| <= i < |pins[k].hooks| ==>
        fresh(pins[k].hooks[i]) && Idle(pins[k].hooks[i])
    {
      safe := LoadNext(lines, n, pins, olds);
      if !safe {
        return;
      }
      n := n + 1;
    }
    safe := true;
    GrownMeans(pins, olds, lines);
  }

  ghost function HooksOf(pins: seq<PinTab>): (r: seq<seq<Hook>>)
    reads pins
    ensures |r| == |pins| && forall k :: 0 <= k < |pins| ==> r[k] == pins[k].hooks
  {
    if pins == [] then [] else [pins[0].hooks] + HooksOf(pins[1..])
  }

  lemma GrownMeans(pins: seq<PinTab>, olds: seq<seq<Hook>>, lines: seq<string>)
    requires |olds| == |pins| && Grown(pins, olds, lines, |lines|)
    ensures forall k :: 0 <= k < |pins| ==> Extends(pins[k].hooks, olds[k], TextsFor(lines, Labels(pins), k))
  {
    assert lines[..|lines|] == lines;
  }

  lemma StartGrown(pins: seq<PinTab>, olds: seq<seq<Hook>>, lines: seq<string>)
    requires |olds| == |pins| && forall k :: 0 <= k < |pins| ==> olds[k] == pins[k].hooks
    ensures Grown(pins, olds, lines, 0)
  {
  }
}
