/** HASH_JEN on 32-bit words: the mixing step loses nothing, and what that says about keys that
    differ in one block. */
module Jenkins {
  import opened BitOps

  const WORD: nat := 0x1_0000_0000

  type u8 = x: nat | x < 256
  type u32 = x: nat | x < WORD

  type Bytes = seq<u8>

  datatype State = State(a: u32, b: u32, c: u32)

  // ---------------------------------------------------------------- the operators of `unsigned`

  function Wrap(x: int): u32 { x % WORD }

  function Plus(x: u32, y: u32): u32 { Wrap(x + y) }

  function Minus(x: u32, y: u32): u32 { Wrap(x - y) }

  /** x << n */
  function Left(x: u32, n: nat): u32 { Wrap(x * Pow2(n)) }

  /** x >> n */
  function Right(x: u32, n: nat): (r: u32) {
    RightBound(x, n);
    ShiftRight(x, n)
  }

  lemma WordWidth()
    ensures Pow2(32) == WORD
  {
    assert Pow2(8) == 256;
    Pow2Adds(8, 8);
    Pow2Adds(16, 16);
  }

  function Xor(x: u32, y: u32): u32 {
    WordWidth();
    XorBound(x, y, 32);
    BitXor(x, y)
  }

  lemma {:induction false} RightBound(x: nat, n: nat)
    ensures ShiftRight(x, n) <= x
  {
    if n > 0 {
      RightBound(x / 2, n - 1);
    }
  }

  lemma XorCancel(x: u32, m: u32)
    ensures Xor(Xor(x, m), m) == x
  {
    XorTwice(x, m);
  }

  lemma PlusCancel(v: u32, p: u32)
    ensures Plus(Minus(v, p), p) == v && Minus(Plus(v, p), p) == v
  {
    var x: int, y: int := v, p;
    WrapAdds(x - y, y);
    WrapAdds(x + y, -y);
    WrapSmall(v);
    hide Wrap;
  }

  lemma WrapSmall(v: u32)
    ensures Wrap(v) == v
  {
  }

  lemma PlusInjective(v: u32, x: u32, y: u32)
    ensures Plus(v, x) == Plus(v, y) <==> x == y
    ensures Plus(x, v) == Plus(y, v) <==> x == y
  {
  }

  // ---------------------------------------------------------------- mixing

  /** v -= p; v -= q; v ^= m; and the way back. */
  function Step(v: u32, p: u32, q: u32, m: u32): u32 {
    Xor(Minus(Minus(v, p), q), m)
  }

  ghost function Unstep(v: u32, p: u32, q: u32, m: u32): u32 {
    Plus(Plus(Xor(v, m), q), p)
  }

  /** Three of the nine lines of HASH_JEN_MIX. */
  function Round(s: State, x: nat, y: nat, z: nat): State
  {
    var a := Step(s.a, s.b, s.c, Right(s.c, x));
    var b := Step(s.b, s.c, a, Left(a, y));
    var c := Step(s.c, a, b, Right(b, z));
    State(a, b, c)
  }

  function Mix(s: State): State {
    Round(Round(Round(s, 13, 8, 13), 12, 16, 5), 3, 10, 15)
  }

  ghost function Unround(s: State, x: nat, y: nat, z: nat): State
  {
    var c := Unstep(s.c, s.a, s.b, Right(s.b, z));
    var b := Unstep(s.b, c, s.a, Left(s.a, y));
    var a := Unstep(s.a, b, c, Right(c, x));
    State(a, b, c)
  }

  ghost function Unmix(s: State): State {
    Unround(Unround(Unround(s, 3, 10, 15), 12, 16, 5), 13, 8, 13)
  }

  lemma StepInverse(v: u32, p: u32, q: u32, m: u32)
    ensures Unstep(Step(v, p, q, m), p, q, m) == v
    ensures Step(Unstep(v, p, q, m), p, q, m) == v
  {
    hide Xor, Plus, Minus;
    XorCancel(Minus(Minus(v, p), q), m);
    PlusCancel(Minus(v, p), q);
    PlusCancel(v, p);
    PlusCancel(Plus(Xor(v, m), q), p);
    PlusCancel(Xor(v, m), q);
    XorCancel(v, m);
  }

  lemma RoundInverse(s: State, x: nat, y: nat, z: nat)
    ensures Unround(Round(s, x, y, z), x, y, z) == s
    ensures Round(Unround(s, x, y, z), x, y, z) == s
  {
    hide Step, Unstep, Left, Right;
    var r := Round(s, x, y, z);
    StepInverse(s.a, s.b, s.c, Right(s.c, x));
    StepInverse(s.b, s.c, r.a, Left(r.a, y));
    StepInverse(s.c, r.a, r.b, Right(r.b, z));
    var u := Unround(s, x, y, z);
    StepInverse(s.a, u.b, u.c, Right(u.c, x));
    StepInverse(s.b, u.c, s.a, Left(s.a, y));
    StepInverse(s.c, s.a, s.b, Right(s.b, z));
  }

  /** HASH_JEN_MIX is a bijection on the 96-bit state. */
  lemma MixBijective(s: State)
    ensures Unmix(Mix(s)) == s && Mix(Unmix(s)) == s
  {
    hide Round, Unround;
    var s1 := Round(s, 13, 8, 13);
    var s2 := Round(s1, 12, 16, 5);
    RoundInverse(s, 13, 8, 13);
    RoundInverse(s1, 12, 16, 5);
    RoundInverse(s2, 3, 10, 15);
    var u1 := Unround(s, 3, 10, 15);
    var u2 := Unround(u1, 12, 16, 5);
    RoundInverse(s, 3, 10, 15);
    RoundInverse(u1, 12, 16, 5);
    RoundInverse(u2, 13, 8, 13);
  }

  lemma MixInjective(s: State, t: State)
    ensures Mix(s) == Mix(t) <==> s == t
  {
    hide Mix, Unmix;
    MixBijective(s);
    MixBijective(t);
  }

  /** x - y - z, modulo 2^32. */
  function Less(x: nat, y: nat, z: nat): u32 {
    (x - y - z) % 0x1_0000_0000
  }

  /** The nine lines as arithmetic: a right shift is a quotient, a left shift a product modulo 2^32. The
      shifts are 13, 8, 13, 12, 16, 5, 3, 10 and 15. */
  lemma MixIs(s: State)
    ensures var a := Xor(Less(s.a, s.b, s.c), s.c / 0x2000);
      var b := Xor(Less(s.b, s.c, a), a * 0x100 % 0x1_0000_0000);
      var c := Xor(Less(s.c, a, b), b / 0x2000);
      var a' := Xor(Less(a, b, c), c / 0x1000);
      var b' := Xor(Less(b, c, a'), a' * 0x1_0000 % 0x1_0000_0000);
      var c' := Xor(Less(c, a', b'), b' / 0x20);
      var a'' := Xor(Less(a', b', c'), c' / 8);
      var b'' := Xor(Less(b', c', a''), a'' * 0x400 % 0x1_0000_0000);
      Mix(s) == State(a'', b'', Xor(Less(c', a'', b''), b'' / 0x8000))
  {
    hide *;
    var r := Round(s, 13, 8, 13);
    var r' := Round(r, 12, 16, 5);
    MixRounds(s);
    Powers();
    RoundIs(s, 13, 8, 13);
    RoundIs(r, 12, 16, 5);
    RoundIs(r', 3, 10, 15);
    ShiftsAre(s.c, r.a, r.b, 13, 8, 13);
    ShiftsAre(r.c, r'.a, r'.b, 12, 16, 5);
    ShiftsAre(r'.c, Mix(s).a, Mix(s).b, 3, 10, 15);
  }

  lemma MixRounds(s: State)
    ensures Mix(s) == Round(Round(Round(s, 13, 8, 13), 12, 16, 5), 3, 10, 15)
  {
    hide Round;
  }

  lemma Powers()
    ensures Pow2(3) == 8 && Pow2(5) == 0x20 && Pow2(8) == 0x100 && Pow2(10) == 0x400
    ensures Pow2(12) == 0x1000 && Pow2(13) == 0x2000 && Pow2(15) == 0x8000 && Pow2(16) == 0x1_0000
  {
  }

  lemma RoundIs(s: State, x: nat, y: nat, z: nat)
    ensures var a := Xor(Less(s.a, s.b, s.c), Right(s.c, x));
      var b := Xor(Less(s.b, s.c, a), Left(a, y));
      Round(s, x, y, z) == State(a, b, Xor(Less(s.c, a, b), Right(b, z)))
  {
    var r := Round(s, x, y, z);
    LessIs(s.a, s.b, s.c);
    LessIs(s.b, s.c, r.a);
    LessIs(s.c, r.a, r.b);
    hide Xor, Less, Minus, Left, Right;
  }

  lemma ShiftsAre(c: u32, a: u32, b: u32, x: nat, y: nat, z: nat)
    ensures Right(c, x) == c / Pow2(x) && Left(a, y) == a * Pow2(y) % 0x1_0000_0000 && Right(b, z) == b / Pow2(z)
  {
    ShiftIsDivision(c, x);
    ShiftIsDivision(b, z);
    hide ShiftRight, Pow2;
  }

  lemma LessIs(x: u32, y: u32, z: u32)
    ensures Minus(Minus(x, y), z) == Less(x, y, z)
  {
  }

  // ---------------------------------------------------------------- absorbing a key

  /** Four little-endian bytes from i on, as the block loop adds them up. */
  function Word(k: Bytes, i: nat): u32
    requires i + 4 <= |k|
  {
    Plus(Plus(Plus(k[i], Left(k[i + 1], 8)), Left(k[i + 2], 16)), Left(k[i + 3], 24))
  }

  function Absorb(s: State, k: Bytes): State
    requires |k| == 12
  {
    Mix(State(Plus(s.a, Word(k, 0)), Plus(s.b, Word(k, 4)), Plus(s.c, Word(k, 8))))
  }

  function Length(n: nat): u32 {
    Wrap(n)
  }

  /** v plus byte i of the tail, shifted; nothing past the end of the tail. */
  function Add(v: u32, k: Bytes, i: nat, shift: nat): u32
  {
    if i < |k| then Plus(v, Left(k[i], shift)) else v
  }

  /** Bytes i .. i+3 of the tail, highest first as the fall-through switch adds them. */
  function TailWord(v: u32, k: Bytes, i: nat): u32 {
    Add(Add(Add(Add(v, k, i + 3, 24), k, i + 2, 16), k, i + 1, 8), k, i, 0)
  }

  /** The last word of the tail: its bytes start one position higher, above the length. */
  function TailTop(v: u32, k: Bytes): u32 {
    Add(Add(Add(v, k, 10, 24), k, 9, 16), k, 8, 8)
  }

  function FinishTail(s: State, k: Bytes, n: nat): State {
    Mix(State(TailWord(s.a, k, 0), TailWord(s.b, k, 4), TailTop(Plus(s.c, Length(n)), k)))
  }

  const INIT := State(0x9e3779b9, 0x9e3779b9, 0xfeedbeef)

  /** Twelve bytes at a time, then the tail; n is the length of the whole key. */
  ghost function Process(s: State, k: Bytes, n: nat): State
    decreases |k|
  {
    if |k| >= 12 then Process(Absorb(s, k[..12]), k[12..], n) else FinishTail(s, k, n)
  }

  ghost function FinalState(key: Bytes): State {
    Process(INIT, key, |key|)
  }

  /** The seeds, and what every key adds at the end: its length modulo 2^32. */
  lemma Seeds(key: Bytes)
    ensures FinalState(key) == Process(State(2654435769, 2654435769, 4276993775), key, |key|)
    ensures |key| == 0 ==> FinalState(key) == Mix(State(2654435769, 2654435769, 4276993775))
  {
    hide Mix;
  }

  /** HASH_JEN, whose result is the third word of the final state. */
  method HashJen(key: Bytes) returns (hashv: u32)
    ensures hashv == FinalState(key).c
  {
    hide Mix, Word, Add, Length, Plus;
    hashv := 0xfeedbeef;
    var i: u32, j: u32 := 0x9e3779b9, 0x9e3779b9;
    var rest := key;
    while |rest| >= 12
      invariant Process(State(i, j, hashv), rest, |key|) == FinalState(key)
      decreases |rest|
    {
      var block := rest[..12];
      i := Plus(i, Word(block, 0));
      j := Plus(j, Word(block, 4));
      hashv := Plus(hashv, Word(block, 8));
      i, j, hashv := MixInPlace(i, j, hashv);
      rest := rest[12..];
    }
    hashv := Plus(hashv, Length(|key|));
    i, j, hashv := SwitchTail(i, j, hashv, rest);
    i, j, hashv := MixInPlace(i, j, hashv);
  }

  /** HASH_JEN_MIX, line by line. */
  method MixInPlace(a0: u32, b0: u32, c0: u32) returns (a: u32, b: u32, c: u32)
    ensures State(a, b, c) == Mix(State(a0, b0, c0))
  {
    a, b, c := a0, b0, c0;
    a, b, c := MixThree(a, b, c, 13, 8, 13);
    a, b, c := MixThree(a, b, c, 12, 16, 5);
    a, b, c := MixThree(a, b, c, 3, 10, 15);
  }

  method MixThree(a0: u32, b0: u32, c0: u32, x: nat, y: nat, z: nat) returns (a: u32, b: u32, c: u32)
    ensures State(a, b, c) == Round(State(a0, b0, c0), x, y, z)
  {
    hide Plus, Minus, Xor, Left, Right;
    a, b, c := a0, b0, c0;
    a := Minus(a, b); a := Minus(a, c); a := Xor(a, Right(c, x));
    b := Minus(b, c); b := Minus(b, a); b := Xor(b, Left(a, y));
    c := Minus(c, a); c := Minus(c, b); c := Xor(c, Right(b, z));
  }

  /** The fall-through switch on the number of bytes left. */
  method SwitchTail(i0: u32, j0: u32, hashv0: u32, rest: Bytes) returns (i: u32, j: u32, hashv: u32)
    requires |rest| < 12
    ensures i == TailWord(i0, rest, 0) && j == TailWord(j0, rest, 4) && hashv == TailTop(hashv0, rest)
  {
    hide Plus, Left;
    var k := |rest|;
    i, j, hashv := i0, j0, hashv0;
    if k >= 11 { hashv := Plus(hashv, Left(rest[10], 24)); }
    if k >= 10 { hashv := Plus(hashv, Left(rest[9], 16)); }
    if k >= 9 { hashv := Plus(hashv, Left(rest[8], 8)); }
    if k >= 8 { j := Plus(j, Left(rest[7], 24)); }
    if k >= 7 { j := Plus(j, Left(rest[6], 16)); }
    if k >= 6 { j := Plus(j, Left(rest[5], 8)); }
    if k >= 5 { j := Plus(j, Left(rest[4], 0)); }
    if k >= 4 { i := Plus(i, Left(rest[3], 24)); }
    if k >= 3 { i := Plus(i, Left(rest[2], 16)); }
    if k >= 2 { i := Plus(i, Left(rest[1], 8)); }
    if k >= 1 { i := Plus(i, Left(rest[0], 0)); }
  }

  // ---------------------------------------------------------------- which keys can collide

  lemma Lefts(x: u8)
    ensures Left(x, 0) == x && Left(x, 8) == 0x100 * x && Left(x, 16) == 0x1_0000 * x && Left(x, 24) == 0x100_0000 * x
  {
    assert Pow2(0) == 1 && Pow2(8) == 0x100 && Pow2(16) == 0x1_0000 && Pow2(24) == 0x100_0000;
  }

  /** The four bytes of a word can be read back from it. */
  lemma WordInjective(k: Bytes, k': Bytes, i: nat)
    requires i + 4 <= |k| == |k'|
    ensures Word(k, i) == Word(k', i) <==>
      k[i] == k'[i] && k[i + 1] == k'[i + 1] && k[i + 2] == k'[i + 2] && k[i + 3] == k'[i + 3]
  {
    WordIs(k, i);
    WordIs(k', i);
    DigitsInjective(k, k', i);
    hide Word, Digits;
  }

  /** The little-endian number that bytes i .. i+3 spell, missing bytes being zero. */
  function Digits(k: Bytes, i: nat): (r: u32) {
    var b0: int, b1: int, b2: int, b3: int :=
      ByteOrZero(k, i), ByteOrZero(k, i + 1), ByteOrZero(k, i + 2), ByteOrZero(k, i + 3);
    b0 + 0x100 * b1 + 0x1_0000 * b2 + 0x100_0000 * b3
  }

  /** The value of byte i, or zero past the end. */
  function ByteOrZero(k: Bytes, i: nat): u8 {
    if i < |k| then k[i] else 0
  }

  lemma DigitsInjective(k: Bytes, k': Bytes, i: nat)
    ensures Digits(k, i) == Digits(k', i) <==>
      && ByteOrZero(k, i) == ByteOrZero(k', i) && ByteOrZero(k, i + 1) == ByteOrZero(k', i + 1)
      && ByteOrZero(k, i + 2) == ByteOrZero(k', i + 2) && ByteOrZero(k, i + 3) == ByteOrZero(k', i + 3)
  {
    hide ByteOrZero;
    var b1: int, b2: int, b3: int := ByteOrZero(k, i + 1), ByteOrZero(k, i + 2), ByteOrZero(k, i + 3);
    var c1: int, c2: int, c3: int := ByteOrZero(k', i + 1), ByteOrZero(k', i + 2), ByteOrZero(k', i + 3);
    LowDigit(ByteOrZero(k, i), ByteOrZero(k', i), b1 + 0x100 * b2 + 0x1_0000 * b3, c1 + 0x100 * c2 + 0x1_0000 * c3);
    LowDigit(ByteOrZero(k, i + 1), ByteOrZero(k', i + 1), b2 + 0x100 * b3, c2 + 0x100 * c3);
    LowDigit(ByteOrZero(k, i + 2), ByteOrZero(k', i + 2), b3, c3);
  }

  lemma LowDigit(x: u8, x': u8, y: int, y': int)
    ensures x as int + 0x100 * y == x' as int + 0x100 * y' <==> x == x' && y == y'
  {
  }

  lemma WrapAdds(x: int, y: int)
    ensures Wrap(Wrap(x) + y) == Wrap(x + y)
  {
  }

  /** Four bytes make a word, the least significant first. */
  lemma WordIs(k: Bytes, i: nat)
    requires i + 4 <= |k|
    ensures Word(k, i) == Digits(k, i)
    ensures var b0: int, b1: int, b2: int, b3: int := k[i], k[i + 1], k[i + 2], k[i + 3];
      Word(k, i) == b0 + 0x100 * b1 + 0x1_0000 * b2 + 0x100_0000 * b3
  {
    hide Left, Plus;
    Lefts(k[i + 1]);
    Lefts(k[i + 2]);
    Lefts(k[i + 3]);
    PlusSmall(k[i], Left(k[i + 1], 8));
    PlusSmall(k[i] + Left(k[i + 1], 8), Left(k[i + 2], 16));
    PlusSmall(k[i] + Left(k[i + 1], 8) + Left(k[i + 2], 16), Left(k[i + 3], 24));
  }

  lemma PlusSmall(x: nat, y: nat)
    requires x < WORD && y < WORD && x + y < WORD
    ensures Plus(x, y) == x + y
  {
  }

  /** Absorbing different blocks from one state gives different states. */
  lemma AbsorbInjective(s: State, k: Bytes, k': Bytes)
    requires |k| == |k'| == 12
    ensures Absorb(s, k) == Absorb(s, k') <==> k == k'
  {
    hide Mix, Plus, Word;
    MixInjective(State(Plus(s.a, Word(k, 0)), Plus(s.b, Word(k, 4)), Plus(s.c, Word(k, 8))),
                 State(Plus(s.a, Word(k', 0)), Plus(s.b, Word(k', 4)), Plus(s.c, Word(k', 8))));
    PlusInjective(s.a, Word(k, 0), Word(k', 0));
    PlusInjective(s.b, Word(k, 4), Word(k', 4));
    PlusInjective(s.c, Word(k, 8), Word(k', 8));
    WordInjective(k, k', 0);
    WordInjective(k, k', 4);
    WordInjective(k, k', 8);
    SameBytes(k, k');
  }

  lemma SameBytes(k: Bytes, k': Bytes)
    requires |k| == |k'| == 12
    ensures k == k' <==>
      && (k[0] == k'[0] && k[1] == k'[1] && k[2] == k'[2] && k[3] == k'[3])
      && (k[4] == k'[4] && k[5] == k'[5] && k[6] == k'[6] && k[7] == k'[7])
      && (k[8] == k'[8] && k[9] == k'[9] && k[10] == k'[10] && k[11] == k'[11])
  {
  }

  /** Absorbing the same bytes keeps different states apart. */
  lemma AbsorbKeepsApart(s: State, t: State, k: Bytes)
    requires |k| == 12
    ensures Absorb(s, k) == Absorb(t, k) <==> s == t
  {
    hide Mix, Plus, Word;
    MixInjective(State(Plus(s.a, Word(k, 0)), Plus(s.b, Word(k, 4)), Plus(s.c, Word(k, 8))),
                 State(Plus(t.a, Word(k, 0)), Plus(t.b, Word(k, 4)), Plus(t.c, Word(k, 8))));
    PlusInjective(Word(k, 0), s.a, t.a);
    PlusInjective(Word(k, 4), s.b, t.b);
    PlusInjective(Word(k, 8), s.c, t.c);
  }

  lemma TailKeepsApart(v: u32, w: u32, k: Bytes, i: nat, shift: nat)
    ensures Add(v, k, i, shift) == Add(w, k, i, shift) <==> v == w
  {
    hide Plus, Left;
    if i < |k| {
      PlusInjective(Left(k[i], shift), v, w);
    }
  }

  lemma FinishKeepsApart(s: State, t: State, k: Bytes, n: nat)
    ensures FinishTail(s, k, n) == FinishTail(t, k, n) <==> s == t
  {
    hide Mix, Add, Plus, Length;
    var sc, tc := Plus(s.c, Length(n)), Plus(t.c, Length(n));
    MixInjective(State(TailWord(s.a, k, 0), TailWord(s.b, k, 4), TailTop(sc, k)),
                 State(TailWord(t.a, k, 0), TailWord(t.b, k, 4), TailTop(tc, k)));
    TailWordKeepsApart(s.a, t.a, k, 0);
    TailWordKeepsApart(s.b, t.b, k, 4);
    TailKeepsApart(sc, tc, k, 10, 24);
    TailKeepsApart(Add(sc, k, 10, 24), Add(tc, k, 10, 24), k, 9, 16);
    TailKeepsApart(Add(Add(sc, k, 10, 24), k, 9, 16), Add(Add(tc, k, 10, 24), k, 9, 16), k, 8, 8);
    PlusInjective(Length(n), s.c, t.c);
  }

  lemma TailWordKeepsApart(v: u32, w: u32, k: Bytes, i: nat)
    ensures TailWord(v, k, i) == TailWord(w, k, i) <==> v == w
  {
    hide Add;
    var v1, w1 := Add(v, k, i + 3, 24), Add(w, k, i + 3, 24);
    var v2, w2 := Add(v1, k, i + 2, 16), Add(w1, k, i + 2, 16);
    var v3, w3 := Add(v2, k, i + 1, 8), Add(w2, k, i + 1, 8);
    TailKeepsApart(v, w, k, i + 3, 24);
    TailKeepsApart(v1, w1, k, i + 2, 16);
    TailKeepsApart(v2, w2, k, i + 1, 8);
    TailKeepsApart(v3, w3, k, i, 0);
  }

  /** The rest of the key keeps different states apart. */
  lemma {:induction false} ProcessKeepsApart(s: State, t: State, k: Bytes, n: nat)
    ensures Process(s, k, n) == Process(t, k, n) <==> s == t
    decreases |k|
  {
    hide Absorb, FinishTail;
    if |k| >= 12 {
      AbsorbKeepsApart(s, t, k[..12]);
      ProcessKeepsApart(Absorb(s, k[..12]), Absorb(t, k[..12]), k[12..], n);
    } else {
      FinishKeepsApart(s, t, k, n);
    }
  }

  lemma AddIs(v: u32, k: Bytes, i: nat, shift: nat)
    requires shift == 0 || shift == 8 || shift == 16 || shift == 24
    ensures var factor := if shift == 0 then 1 else if shift == 8 then 0x100
                          else if shift == 16 then 0x1_0000 else 0x100_0000;
      Add(v, k, i, shift) == Wrap(v + factor * (ByteOrZero(k, i) as int))
  {
    hide Left;
    Lefts(ByteOrZero(k, i));
  }

  lemma TailWordIs(v: u32, k: Bytes, i: nat)
    ensures TailWord(v, k, i) == Wrap(v + Digits(k, i))
  {
    hide Add, ByteOrZero, Wrap;
    var b0: int, b1: int, b2: int, b3: int :=
      ByteOrZero(k, i), ByteOrZero(k, i + 1), ByteOrZero(k, i + 2), ByteOrZero(k, i + 3);
    var v1 := Add(v, k, i + 3, 24);
    var v2 := Add(v1, k, i + 2, 16);
    var v3 := Add(v2, k, i + 1, 8);
    AddIs(v, k, i + 3, 24);
    AddIs(v1, k, i + 2, 16);
    AddIs(v2, k, i + 1, 8);
    AddIs(v3, k, i, 0);
    WrapAdds(v + 0x100_0000 * b3, 0x1_0000 * b2);
    WrapAdds(v + 0x100_0000 * b3 + 0x1_0000 * b2, 0x100 * b1);
    WrapAdds(v + 0x100_0000 * b3 + 0x1_0000 * b2 + 0x100 * b1, b0);
  }

  /** The number spelled by bytes 8 .. 10, one position higher. */
  function TopDigits(k: Bytes): (r: u32) {
    var b0: int, b1: int, b2: int := ByteOrZero(k, 8), ByteOrZero(k, 9), ByteOrZero(k, 10);
    0x100 * b0 + 0x1_0000 * b1 + 0x100_0000 * b2
  }

  lemma TopDigitsInjective(k: Bytes, k': Bytes)
    ensures TopDigits(k) == TopDigits(k') <==>
      && ByteOrZero(k, 8) == ByteOrZero(k', 8) && ByteOrZero(k, 9) == ByteOrZero(k', 9)
      && ByteOrZero(k, 10) == ByteOrZero(k', 10)
  {
    hide ByteOrZero;
    var b1: int, b2: int, c1: int, c2: int :=
      ByteOrZero(k, 9), ByteOrZero(k, 10), ByteOrZero(k', 9), ByteOrZero(k', 10);
    LowDigit(ByteOrZero(k, 8), ByteOrZero(k', 8), b1 + 0x100 * b2, c1 + 0x100 * c2);
    LowDigit(ByteOrZero(k, 9), ByteOrZero(k', 9), b2, c2);
  }

  lemma TailTopIs(v: u32, k: Bytes)
    ensures TailTop(v, k) == Wrap(v + TopDigits(k))
  {
    hide Add, ByteOrZero, Wrap;
    var b0: int, b1: int, b2: int := ByteOrZero(k, 8), ByteOrZero(k, 9), ByteOrZero(k, 10);
    var v1 := Add(v, k, 10, 24);
    var v2 := Add(v1, k, 9, 16);
    AddIs(v, k, 10, 24);
    AddIs(v1, k, 9, 16);
    AddIs(v2, k, 8, 8);
    WrapAdds(v + 0x100_0000 * b2, 0x1_0000 * b1);
    WrapAdds(v + 0x100_0000 * b2 + 0x1_0000 * b1, 0x100 * b0);
  }

  function Spelled(b0: nat, b1: nat, b2: nat, b3: nat): nat {
    b0 + 0x100 * b1 + 0x1_0000 * b2 + 0x100_0000 * b3
  }

  /** The end of a key: the tail's bytes, the least significant first and zero where there is none, are added
      to the three words, the last eleven at most, and the length goes below the ninth. */
  lemma TailIs(s: State, k: Bytes, n: nat)
    requires |k| < 12
    ensures FinishTail(s, k, n) == Mix(State(
      (s.a + Spelled(ByteOrZero(k, 0), ByteOrZero(k, 1), ByteOrZero(k, 2), ByteOrZero(k, 3))) % 0x1_0000_0000,
      (s.b + Spelled(ByteOrZero(k, 4), ByteOrZero(k, 5), ByteOrZero(k, 6), ByteOrZero(k, 7))) % 0x1_0000_0000,
      (s.c + n + Spelled(0, ByteOrZero(k, 8), ByteOrZero(k, 9), ByteOrZero(k, 10))) % 0x1_0000_0000))
  {
    hide Mix, TailWord, TailTop, ByteOrZero, Length, Plus, Spelled;
    WordEnd(s.a, k, 0);
    WordEnd(s.b, k, 4);
    TopEnd(s.c, k, n);
  }

  lemma WordEnd(v: u32, k: Bytes, i: nat)
    ensures TailWord(v, k, i)
         == (v + Spelled(ByteOrZero(k, i), ByteOrZero(k, i + 1), ByteOrZero(k, i + 2), ByteOrZero(k, i + 3)))
            % 0x1_0000_0000
  {
    hide TailWord, ByteOrZero;
    TailWordIs(v, k, i);
  }

  lemma TopEnd(v: u32, k: Bytes, n: nat)
    ensures TailTop(Plus(v, Length(n)), k)
         == (v + n + Spelled(0, ByteOrZero(k, 8), ByteOrZero(k, 9), ByteOrZero(k, 10))) % 0x1_0000_0000
  {
    TailTopIs(Plus(v, Length(n)), k);
    LengthAdds(v, n, TopDigits(k));
    hide TailTop, ByteOrZero, Length, Plus, Wrap;
  }

  lemma LengthAdds(c: u32, n: nat, x: u32)
    ensures Wrap(Plus(c, Length(n)) + x) == (c + n + x) % 0x1_0000_0000
  {
    WrapAdds(n, c);
    WrapAdds(c + n, x);
  }

  lemma WrapTells(v: u32, x: u32, y: u32)
    ensures Wrap(v + x) == Wrap(v + y) <==> x == y
  {
  }

  lemma TailWordTells(v: u32, k: Bytes, k': Bytes, i: nat)
    ensures TailWord(v, k, i) == TailWord(v, k', i) <==>
      && ByteOrZero(k, i) == ByteOrZero(k', i) && ByteOrZero(k, i + 1) == ByteOrZero(k', i + 1)
      && ByteOrZero(k, i + 2) == ByteOrZero(k', i + 2) && ByteOrZero(k, i + 3) == ByteOrZero(k', i + 3)
  {
    hide TailWord, Digits, Wrap, ByteOrZero;
    TailWordIs(v, k, i);
    TailWordIs(v, k', i);
    WrapTells(v, Digits(k, i), Digits(k', i));
    DigitsInjective(k, k', i);
  }

  lemma TailTopTells(v: u32, k: Bytes, k': Bytes)
    ensures TailTop(v, k) == TailTop(v, k') <==>
      && ByteOrZero(k, 8) == ByteOrZero(k', 8) && ByteOrZero(k, 9) == ByteOrZero(k', 9)
      && ByteOrZero(k, 10) == ByteOrZero(k', 10)
  {
    hide TailTop, TopDigits, Wrap, ByteOrZero;
    TailTopIs(v, k);
    TailTopIs(v, k');
    WrapTells(v, TopDigits(k), TopDigits(k'));
    TopDigitsInjective(k, k');
  }

  /** Different tails of the same length, from one state, give different final states. */
  lemma FinishInjective(s: State, k: Bytes, k': Bytes, n: nat)
    requires |k| == |k'| < 12
    ensures FinishTail(s, k, n) == FinishTail(s, k', n) <==> k == k'
  {
    hide Mix, TailWord, TailTop, Length;
    var c := Plus(s.c, Length(n));
    MixInjective(State(TailWord(s.a, k, 0), TailWord(s.b, k, 4), TailTop(c, k)),
                 State(TailWord(s.a, k', 0), TailWord(s.b, k', 4), TailTop(c, k')));
    TailWordTells(s.a, k, k', 0);
    TailWordTells(s.b, k, k', 4);
    TailTopTells(c, k, k');
    SameTail(k, k');
  }

  lemma SameTail(k: Bytes, k': Bytes)
    requires |k| == |k'| < 12
    ensures k == k' <==> forall i :: 0 <= i < 11 ==> ByteOrZero(k, i) == ByteOrZero(k', i)
  {
    if forall i :: 0 <= i < 11 ==> ByteOrZero(k, i) == ByteOrZero(k', i) {
      forall i | 0 <= i < |k|
        ensures k[i] == k'[i]
      {
        assert ByteOrZero(k, i) == ByteOrZero(k', i);
      }
    }
  }

  lemma {:induction false} ProcessInjective(s: State, k: Bytes, x: Bytes, x': Bytes, rest: Bytes, n: nat)
    requires |k| % 12 == 0 && |x| == |x'|
    requires |x| == 12 || (|x| < 12 && rest == [])
    ensures Process(s, k + x + rest, n) == Process(s, k + x' + rest, n) <==> x == x'
    decreases |k|
  {
    hide Absorb, FinishTail;
    if |k| >= 12 {
      assert (k + x + rest)[..12] == k[..12] && (k + x + rest)[12..] == k[12..] + x + rest;
      assert (k + x' + rest)[..12] == k[..12] && (k + x' + rest)[12..] == k[12..] + x' + rest;
      ProcessInjective(Absorb(s, k[..12]), k[12..], x, x', rest, n);
    } else if |x| == 12 {
      assert (k + x + rest)[..12] == x && (k + x + rest)[12..] == rest;
      assert (k + x' + rest)[..12] == x' && (k + x' + rest)[12..] == rest;
      AbsorbInjective(s, x, x');
      ProcessKeepsApart(Absorb(s, x), Absorb(s, x'), rest, n);
    } else {
      assert k + x + rest == x && k + x' + rest == x';
      FinishInjective(s, x, x', n);
    }
  }

  /** Two keys of equal length that agree outside one twelve-byte block, or outside the tail, end in
      the same 96-bit state exactly when they are equal. The hash is only one word of that state. */
  lemma OneBlockTellsKeysApart(k: Bytes, x: Bytes, x': Bytes, rest: Bytes)
    requires |k| % 12 == 0 && |x| == |x'|
    requires |x| == 12 || (|x| < 12 && rest == [])
    ensures FinalState(k + x + rest) == FinalState(k + x' + rest) <==> k + x + rest == k + x' + rest
  {
    ProcessInjective(INIT, k, x, x', rest, |k + x + rest|);
    assert (k + x + rest)[|k|..|k| + |x|] == x && (k + x' + rest)[|k|..|k| + |x|] == x';
  }
}
