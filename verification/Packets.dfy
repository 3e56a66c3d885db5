/** The raw packet format and its way to the clients. */
module Packets {
  import opened Seqs

  const U32 := 0x1_0000_0000

  /** What one packet says. */
  datatype Sample = Sample(sec: nat, nsec: nat, chan: nat, value: nat)

  ghost predicate InRange(p: Sample) {
    p.sec < U32 && p.nsec < U32 && p.chan < 256 && p.value < 256
  }

  // ---------------------------------------------------------------- decimal fields

  predicate IsDigit(c: char) {
    '0' <= c <= '9'
  }

  function DigitChar(d: nat): (c: char)
    requires d < 10
    ensures IsDigit(c) && DigitOf(c) == d
  {
    "0123456789"[d]
  }

  function DigitOf(c: char): nat
    requires IsDigit(c)
  {
    c as int - '0' as int
  }

  /** %u */
  function Digits(n: nat): (s: string)
    ensures s != "" && forall k :: 0 <= k < |s| ==> IsDigit(s[k])
  {
    if n < 10 then [DigitChar(n)] else Digits(n / 10) + [DigitChar(n % 10)]
  }

  function Zeros(k: nat): (s: string)
    ensures |s| == k && forall i :: 0 <= i < |s| ==> s[i] == '0'
  {
    if k == 0 then "" else Zeros(k - 1) + "0"
  }

  /** %0wu */
  function Padded(n: nat, w: nat): (s: string)
    ensures s != "" && forall k :: 0 <= k < |s| ==> IsDigit(s[k])
  {
    var d := Digits(n);
    if |d| < w then Zeros(w - |d|) + d else d
  }

  function ValueOf(s: string): nat
    requires forall k :: 0 <= k < |s| ==> IsDigit(s[k])
  {
    if s == "" then 0 else ValueOf(s[..|s| - 1]) * 10 + DigitOf(s[|s| - 1])
  }

  lemma {:induction false} DigitsBack(n: nat)
    ensures ValueOf(Digits(n)) == n
  {
    if n >= 10 {
      DigitsBack(n / 10);
      assert Digits(n)[..|Digits(n)| - 1] == Digits(n / 10);
    }
  }

  lemma {:induction false} ZerosBack(k: nat, s: string)
    requires forall i :: 0 <= i < |s| ==> IsDigit(s[i])
    ensures ValueOf(Zeros(k) + s) == ValueOf(s)
    decreases |s|, k
  {
    var t := Zeros(k) + s;
    if s != "" {
      assert t[..|t| - 1] == Zeros(k) + s[..|s| - 1];
      ZerosBack(k, s[..|s| - 1]);
    } else if k > 0 {
      assert t == Zeros(k) && t[..|t| - 1] == Zeros(k - 1) + s;
      ZerosBack(k - 1, s);
    }
  }

  lemma PaddedBack(n: nat, w: nat)
    ensures ValueOf(Padded(n, w)) == n
  {
    DigitsBack(n);
    if |Digits(n)| < w {
      ZerosBack(w - |Digits(n)|, Digits(n));
    }
  }

  // ---------------------------------------------------------------- packets

  const START := "\U{0002}DI;"

  function Pack(p: Sample): (s: string)
    ensures |s| > 0
  {
    var end := Padded(p.chan, 2) + (";" + (Digits(p.value) + "\r\n"));
    START + (Digits(p.sec) + ("." + (Padded(p.nsec, 6) + (";" + end))))
  }

  function PackAll(ps: seq<Sample>): string {
    if ps == [] then "" else Pack(ps[0]) + PackAll(ps[1..])
  }

  // ---------------------------------------------------------------- a reader

  function DigitsLen(s: string): (n: nat)
    ensures n <= |s| && forall k :: 0 <= k < n ==> IsDigit(s[k])
  {
    if s == "" || !IsDigit(s[0]) then 0 else 1 + DigitsLen(s[1..])
  }

  datatype Read<T> = Fail | Read(value: T, rest: string)

  function ReadNum(s: string): Read<nat> {
    var n := DigitsLen(s);
    if n == 0 then Fail else Read(ValueOf(s[..n]), s[n..])
  }

  function Expect(s: string, lit: string): Read<()> {
    if lit <= s then Read((), s[|lit|..]) else Fail
  }

  /** A number and the text that ends it. */
  function ReadField(s: string, lit: string): Read<nat> {
    match ReadNum(s)
    case Fail => Fail
    case Read(n, t) =>
      match Expect(t, lit)
      case Fail => Fail
      case Read(_, u) => Read(n, u)
  }

  function ReadPacket(s: string): Read<Sample> {
    match Expect(s, START)
    case Fail => Fail
    case Read(_, s1) =>
      match ReadField(s1, ".")
      case Fail => Fail
      case Read(sec, s2) =>
        match ReadField(s2, ";")
        case Fail => Fail
        case Read(nsec, s3) =>
          match ReadField(s3, ";")
          case Fail => Fail
          case Read(chan, s4) =>
            match ReadField(s4, "\r\n")
            case Fail => Fail
            case Read(value, s5) => Read(Sample(sec, nsec, chan, value), s5)
  }

  function ReadAll(s: string): Read<seq<Sample>>
    decreases |s|
  {
    if s == "" then Read([], "") else
      match ReadPacket(s)
      case Fail => Fail
      case Read(p, rest) =>
        if |rest| >= |s| then Fail else
          match ReadAll(rest)
          case Fail => Fail
          case Read(ps, end) => Read([p] + ps, end)
  }

  lemma {:induction false} DigitsEnd(d: string, rest: string)
    requires (forall k :: 0 <= k < |d| ==> IsDigit(d[k])) && (rest == "" || !IsDigit(rest[0]))
    ensures DigitsLen(d + rest) == |d|
  {
    if d == "" {
      assert d + rest == rest;
    } else {
      assert (d + rest)[1..] == d[1..] + rest;
      DigitsEnd(d[1..], rest);
    }
  }

  lemma LitEnd(lit: string, rest: string)
    ensures Expect(lit + rest, lit) == Read((), rest)
  {
  }

  lemma FieldBack(n: nat, w: nat, lit: string, rest: string)
    requires lit != "" && !IsDigit(lit[0])
    ensures ReadField(Padded(n, w) + (lit + rest), lit) == Read(n, rest)
  {
    var d := Padded(n, w);
    var t := lit + rest;
    DigitsEnd(d, t);
    PaddedBack(n, w);
    LitEnd(lit, rest);
    assert (d + t)[..|d|] == d && (d + t)[|d|..] == t;
    hide Padded, DigitsLen, ValueOf, Expect;
  }

  /** A packet reads back as what it was made from, and hands over exactly what follows it. */
  lemma PacketBack(p: Sample, rest: string)
    ensures ReadPacket(Pack(p) + rest) == Read(p, rest)
  {
    hide ReadField, Expect, Digits, Padded;
    var s5 := "\r\n" + rest;
    var s4 := ";" + (Digits(p.value) + s5);
    var s3 := ";" + (Padded(p.chan, 2) + s4);
    var s2 := "." + (Padded(p.nsec, 6) + s3);
    PackSplit(p, rest);
    LitEnd(START, Digits(p.sec) + s2);
    Unpadded(p.sec);
    Unpadded(p.value);
    FieldBack(p.sec, 0, ".", Padded(p.nsec, 6) + s3);
    FieldBack(p.nsec, 6, ";", Padded(p.chan, 2) + s4);
    FieldBack(p.chan, 2, ";", Digits(p.value) + s5);
    FieldBack(p.value, 0, "\r\n", rest);
  }

  lemma Unpadded(n: nat)
    ensures Padded(n, 0) == Digits(n)
  {
  }

  lemma PackSplit(p: Sample, rest: string)
    ensures Pack(p) + rest
         == START + (Digits(p.sec) + ("." + (Padded(p.nsec, 6) + (";" + (Padded(p.chan, 2)
            + (";" + (Digits(p.value) + ("\r\n" + rest))))))))
  {
    hide Digits, Padded;
    var s5 := "\r\n";
    var s4 := Digits(p.value) + s5;
    var s3 := Padded(p.chan, 2) + (";" + s4);
    var s2 := Padded(p.nsec, 6) + (";" + s3);
    var s1 := Digits(p.sec) + ("." + s2);
    Assoc(START, s1, rest);
    Assoc(Digits(p.sec), "." + s2, rest);
    Assoc(".", s2, rest);
    Assoc(Padded(p.nsec, 6), ";" + s3, rest);
    Assoc(";", s3, rest);
    Assoc(Padded(p.chan, 2), ";" + s4, rest);
    Assoc(";", s4, rest);
    Assoc(Digits(p.value), s5, rest);
  }

  /** A decimal print of n with at least w digits, and no more zeros in front than that takes. */
  ghost predicate Prints(s: string, n: nat, w: nat) {
    && |s| >= w && |s| > 0 && (forall k :: 0 <= k < |s| ==> '0' <= s[k] <= '9')
    && ValueOf(s) == n
    && (|s| > w && |s| > 1 ==> s[0] != '0')
  }

  lemma {:induction false} DigitsPrint(n: nat)
    ensures Prints(Digits(n), n, 0) && (n > 0 ==> Digits(n)[0] != '0')
  {
    DigitsBack(n);
    if n >= 10 {
      DigitsPrint(n / 10);
      assert Digits(n)[0] == Digits(n / 10)[0];
    } else {
      assert Digits(n) == [DigitChar(n)];
    }
  }

  lemma PaddedPrint(n: nat, w: nat)
    ensures Prints(Padded(n, w), n, w)
  {
    DigitsPrint(n);
    PaddedBack(n, w);
    hide Digits, ValueOf;
  }

  /** The text of a packet: which number stands in which field, and how wide the fields are. */
  lemma PacketText(p: Sample) returns (sec: string, nsec: string, chan: string, value: string)
    ensures Prints(sec, p.sec, 1) && Prints(nsec, p.nsec, 6) && Prints(chan, p.chan, 2) && Prints(value, p.value, 1)
    ensures Pack(p) == "\U{0002}DI;" + sec + "." + nsec + ";" + chan + ";" + value + "\r\n"
  {
    sec, nsec, chan, value := Digits(p.sec), Padded(p.nsec, 6), Padded(p.chan, 2), Digits(p.value);
    DigitsPrint(p.sec);
    DigitsPrint(p.value);
    PaddedPrint(p.nsec, 6);
    PaddedPrint(p.chan, 2);
    PackSplit(p, "");
    hide Digits, Padded, ValueOf;
    Flatten(sec, nsec, chan, value);
  }

  lemma Flatten(a: string, b: string, c: string, d: string)
    ensures START + (a + ("." + (b + (";" + (c + (";" + (d + "\r\n")))))))
         == "\U{0002}DI;" + a + "." + b + ";" + c + ";" + d + "\r\n"
  {
  }

  lemma ReadNext(p: Sample, rest: string)
    ensures ReadAll(Pack(p) + rest) == match ReadAll(rest) case Fail => Fail case Read(ps, end) => Read([p] + ps, end)
  {
    hide Pack, ReadPacket;
    PacketBack(p, rest);
    assert Pack(p) + rest != "";
  }

  /** Any concatenation of packets reads back as the list of samples it was made from. */
  lemma {:induction false} StreamBack(ps: seq<Sample>)
    ensures ReadAll(PackAll(ps)) == Read(ps, "")
    decreases |ps|
  {
    if ps != [] {
      hide Pack, ReadPacket, ReadAll;
      StreamBack(ps[1..]);
      ReadNext(ps[0], PackAll(ps[1..]));
      assert [ps[0]] + ps[1..] == ps;
    }
  }

  /** So no two lists of samples have the same bytes. */
  lemma StreamsDiffer(ps: seq<Sample>, qs: seq<Sample>)
    requires PackAll(ps) == PackAll(qs)
    ensures ps == qs
  {
    StreamBack(ps);
    StreamBack(qs);
  }

  // ---------------------------------------------------------------- the buffer

  function Pow10(k: nat): nat {
    if k == 0 then 1 else 10 * Pow10(k - 1)
  }

  lemma {:induction false} DigitsWidth(n: nat, k: nat)
    requires k > 0 && n < Pow10(k)
    ensures |Digits(n)| <= k
  {
    if n >= 10 {
      DigitsWidth(n / 10, k - 1);
    }
  }

  /** Every packet fits the 256-byte buffer with room to spare. */
  lemma PackFits(p: Sample)
    requires InRange(p)
    ensures |Pack(p)| <= 35
  {
    assert Pow10(3) == 1000;
    assert Pow10(5) == 100000 && Pow10(7) == 10000000 && Pow10(9) == 1000000000 && Pow10(10) == 10000000000;
    DigitsWidth(p.sec, 10);
    DigitsWidth(p.nsec, 10);
    DigitsWidth(p.chan, 3);
    DigitsWidth(p.value, 3);
    hide Digits;
  }

  /** The arguments as the call converts them: %u takes 32 bits, chan and value are 8-bit parameters. */
  function Converted(sec: int, nsec: int, chan: int, value: int): (p: Sample)
    ensures p.sec < U32 && p.nsec < U32 && p.chan < 256 && p.value < 256
  {
    Sample(sec % U32, nsec % U32, chan % 256, value % 256)
  }

  /** snprintf: the text cut to the buffer's size less one, a NUL, and the length of the whole text. */
  method Snprintf(buffer: array<char>, text: string) returns (size: nat)
    requires buffer.Length > 0
    modifies buffer
    ensures size == |text|
    ensures size < buffer.Length ==> buffer[..size] == text && buffer[size] == '\0'
  {
    var n := if |text| < buffer.Length then |text| else buffer.Length - 1;
    for i := 0 to n
      invariant forall j :: 0 <= j < i ==> buffer[j] == text[j]
    {
      buffer[i] := text[i];
    }
    buffer[n] := '\0';
    size := |text|;
  }

  /** dispatch_raw_pack: the buffer holds the whole packet, never a cut one. */
  method RawPack(buffer: array<char>, sec: int, nsec: int, chan: int, value: int) returns (size: nat)
    requires buffer.Length == 256
    modifies buffer
    ensures size < 256 && buffer[..size] == Pack(Converted(sec, nsec, chan, value)) && buffer[size] == '\0'
    ensures var p := Sample(sec % 0x1_0000_0000, nsec % 0x1_0000_0000, chan % 256, value % 256);
      forall rest: string :: ReadPacket(buffer[..size] + rest) == Read(p, rest)
  {
    hide Pack, ReadPacket;
    forall rest: string
      ensures ReadPacket(Pack(Converted(sec, nsec, chan, value)) + rest)
           == Read(Sample(sec % U32, nsec % U32, chan % 256, value % 256), rest)
    {
      PacketBack(Converted(sec, nsec, chan, value), rest);
    }
    var p := Converted(sec, nsec, chan, value);
    PackFits(p);
    size := Snprintf(buffer, Pack(p));
  }

  // ---------------------------------------------------------------- fan-out

  /** A connected client: where in the global stream it joined, and the bytes it was sent. */
  datatype Client = Client(id: nat, joined: nat, got: string)

  /** The global stream of samples and the connected clients, in list order. */
  datatype Hub = Hub(stream: seq<Sample>, clients: seq<Client>)

  /** `wrote` says what write answers for each client, if its turn comes. */
  datatype Event = Join(id: nat) | Leave(id: nat) | Dispatch(sample: Sample, wrote: seq<int>)

  /** The client takes n bytes of the packet; a write that fails takes none. */
  function Taken(c: Client, packet: string, n: int): Client {
    if 0 <= n <= |packet| then c.(got := c.got + packet[..n]) else c
  }

  /** The packet is written in list order; the loop stops at the first client that does not take all of it. */
  function Written(clients: seq<Client>, packet: string, wrote: seq<int>): (r: seq<Client>)
    requires |wrote| == |clients|
    ensures |r| == |clients|
  {
    if clients == [] then []
    else [Taken(clients[0], packet, wrote[0])]
         + if wrote[0] == |packet| then Written(clients[1..], packet, wrote[1..]) else clients[1..]
  }

  /** Client k when `first` is the first client whose write is not complete. */
  function Sent(c: Client, packet: string, wrote: int, k: nat, first: nat): Client {
    if k < first then c.(got := c.got + packet) else if k == first then Taken(c, packet, wrote) else c
  }

  /** Written, by position. */
  lemma {:induction false} WrittenAt(clients: seq<Client>, packet: string, wrote: seq<int>, first: nat)
    requires |wrote| == |clients| && first <= |clients|
    requires forall k :: 0 <= k < first ==> wrote[k] == |packet|
    requires first < |clients| ==> wrote[first] != |packet|
    ensures forall k :: 0 <= k < |clients| ==>
      Written(clients, packet, wrote)[k] == Sent(clients[k], packet, wrote[k], k, first)
  {
    assert packet[..|packet|] == packet;
    if clients != [] && first > 0 {
      WrittenAt(clients[1..], packet, wrote[1..], first - 1);
    }
  }

  class TcpClient {
    const id: nat
    var got: string
    ghost var joined: nat

    constructor (id: nat, ghost joined: nat)
      ensures Snapshot() == Client(id, joined, "")
    {
      this.id, got, this.joined := id, "", joined;
    }

    ghost function Snapshot(): Client
      reads this
    {
      Client(id, joined, got)
    }

    method Write(packet: string, n: int)
      modifies this
      ensures Snapshot() == Taken(old(Snapshot()), packet, n)
    {
      if 0 <= n <= |packet| {
        got := got + packet[..n];
      }
    }
  }

  ghost function Snapshots(clients: seq<TcpClient>): (r: seq<Client>)
    reads clients
    ensures |r| == |clients| && forall k :: 0 <= k < |r| ==> r[k] == clients[k].Snapshot()
  {
    if clients == [] then [] else [clients[0].Snapshot()] + Snapshots(clients[1..])
  }

  /** Some write before client k's is not complete. */
  ghost predicate Stopped(wrote: seq<int>, k: nat, len: nat)
    requires k <= |wrote|
  {
    exists i :: 0 <= i < k && wrote[i] != len
  }

  /** The bytes that a write with this answer delivers. */
  function Bytes(packet: string, n: int): string {
    if 0 <= n <= |packet| then packet[..n] else ""
  }

  /** Client k is sent what its own write takes, unless a write before it was not complete. */
  lemma WrittenBytes(clients: seq<Client>, packet: string, wrote: seq<int>)
    requires |wrote| == |clients|
    ensures forall k :: 0 <= k < |clients| ==>
      Written(clients, packet, wrote)[k].got
        == clients[k].got + if Stopped(wrote, k, |packet|) then "" else Bytes(packet, wrote[k])
  {
    var first := FirstIncomplete(wrote, |packet|);
    WrittenAt(clients, packet, wrote, first);
    assert packet[..|packet|] == packet;
    forall k | 0 <= k < |clients|
      ensures Stopped(wrote, k, |packet|) <==> first < k
    {
      assert first < k ==> wrote[first] != |packet|;
    }
    hide Stopped, Written;
  }

  /** dispatch: the packet is written to the clients in list order, until a write is short or fails. */
  method SendAll(clients: seq<TcpClient>, packet: string, wrote: seq<int>) returns (ret: int)
    requires |wrote| == |clients| && forall i, j :: 0 <= i < j < |clients| ==> clients[i] != clients[j]
    modifies clients
    ensures Snapshots(clients) == Written(old(Snapshots(clients)), packet, wrote)
    ensures ret == if forall k :: 0 <= k < |wrote| ==> wrote[k] == |packet| then 0 else -1
  {
    hide Written, TcpClient.Snapshot, Snapshots;
    ghost var before := Snapshots(clients);
    assert packet[..|packet|] == packet;
    var k := 0;
    while k < |clients|
      invariant k <= |clients| && forall i :: 0 <= i < k ==> wrote[i] == |packet|
      invariant forall i :: 0 <= i < k ==> clients[i].Snapshot() == before[i].(got := before[i].got + packet)
      invariant forall i :: k <= i < |clients| ==> clients[i].Snapshot() == before[i]
    {
      clients[k].Write(packet, wrote[k]);
      if wrote[k] != |packet| {
        WrittenAt(before, packet, wrote, k);
        return -1;
      }
      k := k + 1;
    }
    WrittenAt(before, packet, wrote, k);
    ret := 0;
  }

  function Disconnected(clients: seq<Client>, id: nat): seq<Client> {
    if clients == [] then []
    else if clients[0].id == id then clients[1..]
    else [clients[0]] + Disconnected(clients[1..], id)
  }

  /** The client with that id, and no other, is taken off the list. */
  lemma {:induction false} DisconnectedExactly(clients: seq<Client>, id: nat)
    requires DistinctIds(clients)
    ensures forall c :: c in Disconnected(clients, id) <==> c in clients && c.id != id
  {
    if clients != [] {
      DistinctTail(clients);
      if clients[0].id == id {
        assert forall c :: c in clients[1..] ==> c.id != id;
      } else {
        DisconnectedExactly(clients[1..], id);
      }
      hide DistinctIds;
    }
  }

  // ---------------------------------------------------------------- runs

  /** Two connections open at the same time have different ids. */
  ghost predicate Possible(h: Hub, e: Event) {
    match e
    case Join(id) => forall k :: 0 <= k < |h.clients| ==> h.clients[k].id != id
    case Leave(_) => true
    case Dispatch(_, wrote) => |wrote| == |h.clients|
  }

  function Next(h: Hub, e: Event): Hub {
    match e
    case Join(id) => h.(clients := h.clients + [Client(id, |h.stream|, "")])
    case Leave(id) => h.(clients := Disconnected(h.clients, id))
    case Dispatch(p, wrote) =>
      Hub(h.stream + [p], if |wrote| == |h.clients| then Written(h.clients, Pack(p), wrote) else h.clients)
  }

  function End(h: Hub, es: seq<Event>): Hub {
    if es == [] then h else Next(End(h, es[..|es| - 1]), es[|es| - 1])
  }

  ghost predicate PossibleRun(h: Hub, es: seq<Event>) {
    forall t :: 0 <= t < |es| ==> Possible(End(h, es[..t]), es[t])
  }

  /** The dispatch loop stops before or at the client with this id: its write, or that of a client
      before it in the list, is not complete. */
  ghost predicate StopsBy(h: Hub, e: Event, id: nat) {
    e.Dispatch? && exists i, j :: 0 <= i <= j < |h.clients| && i < |e.wrote|
                                  && h.clients[j].id == id && e.wrote[i] != |Pack(e.sample)|
  }

  /** Some dispatch since the client joined stopped before or at it. */
  ghost predicate Interrupted(h: Hub, es: seq<Event>, c: Client) {
    exists t :: 0 <= t < |es| && c.joined <= |End(h, es[..t]).stream| && StopsBy(End(h, es[..t]), es[t], c.id)
  }

  ghost predicate DistinctIds(clients: seq<Client>) {
    forall i, j :: 0 <= i < j < |clients| ==> clients[i].id != clients[j].id
  }

  /** A client's bytes are the packets since it joined, or too few bytes for that. */
  ghost predicate Served(c: Client, stream: seq<Sample>, interrupted: bool) {
    && c.joined <= |stream|
    && if interrupted then |c.got| < |PackAll(stream[c.joined..])| else c.got == PackAll(stream[c.joined..])
  }

  ghost predicate AllServed(h: Hub, es: seq<Event>) {
    var e := End(h, es);
    && DistinctIds(e.clients)
    && forall k :: 0 <= k < |e.clients| ==> Served(e.clients[k], e.stream, Interrupted(h, es, e.clients[k]))
  }

  lemma {:induction false} PackAllSnoc(ps: seq<Sample>, p: Sample)
    ensures PackAll(ps + [p]) == PackAll(ps) + Pack(p)
    decreases |ps|
  {
    hide Pack;
    if ps == [] {
      assert [] + [p] == [p] && [p][1..] == [];
      assert PackAll([p]) == Pack(p) + "";
    } else {
      assert (ps + [p])[1..] == ps[1..] + [p];
      PackAllSnoc(ps[1..], p);
      Assoc(Pack(ps[0]), PackAll(ps[1..]), Pack(p));
    }
  }

  /** One more packet in the stream, and what the client took of it. */
  lemma ServedNext(c: Client, stream: seq<Sample>, p: Sample, wrote: int, was: bool, reached: bool)
    requires Served(c, stream, was)
    ensures Served(if reached then Taken(c, Pack(p), wrote) else c, stream + [p],
                   was || !(reached && wrote == |Pack(p)|))
  {
    hide Pack;
    assert (stream + [p])[c.joined..] == stream[c.joined..] + [p];
    PackAllSnoc(stream[c.joined..], p);
    assert Pack(p)[..|Pack(p)|] == Pack(p);
  }

  lemma {:induction false} StreamGrows(h: Hub, es: seq<Event>, t: nat)
    requires t <= |es|
    ensures |End(h, es[..t]).stream| <= |End(h, es).stream|
    ensures t < |es| && es[t].Dispatch? ==> |End(h, es[..t]).stream| < |End(h, es).stream|
    decreases |es|
  {
    assert es[..|es|] == es;
    if t < |es| {
      var es' := es[..|es| - 1];
      assert es'[..t] == es[..t];
      StreamGrows(h, es', t);
    }
  }

  /** The last event of a run adds to the interruptions exactly when it is a dispatch that stops by the
      client, after it has joined. */
  lemma InterruptedSnoc(h: Hub, es: seq<Event>, c: Client)
    requires es != []
    ensures var es', e := es[..|es| - 1], es[|es| - 1];
      Interrupted(h, es, c) <==>
        Interrupted(h, es', c) || (c.joined <= |End(h, es').stream| && StopsBy(End(h, es'), e, c.id))
  {
    hide End, StopsBy;
    var es' := es[..|es| - 1];
    assert forall t :: 0 <= t < |es'| ==> es'[..t] == es[..t] && es'[t] == es[t];
    if Interrupted(h, es', c) {
      var t :| 0 <= t < |es'| && c.joined <= |End(h, es'[..t]).stream| && StopsBy(End(h, es'[..t]), es'[t], c.id);
      assert es'[..t] == es[..t];
    }
    if Interrupted(h, es, c) {
      var t :| 0 <= t < |es| && c.joined <= |End(h, es[..t]).stream| && StopsBy(End(h, es[..t]), es[t], c.id);
      assert t < |es'| ==> es'[..t] == es[..t];
    }
  }

  /** A client that has just joined has not been interrupted. */
  lemma FreshClient(h: Hub, es: seq<Event>, c: Client)
    requires c.joined == |End(h, es).stream|
    ensures !Interrupted(h, es, c)
  {
    hide End;
    forall t | 0 <= t < |es|
      ensures !(c.joined <= |End(h, es[..t]).stream| && StopsBy(End(h, es[..t]), es[t], c.id))
    {
      StreamGrows(h, es, t);
    }
  }

  lemma {:induction false} DisconnectedMembers(clients: seq<Client>, id: nat)
    requires DistinctIds(clients)
    ensures DistinctIds(Disconnected(clients, id))
    ensures forall c :: c in Disconnected(clients, id) ==> c in clients
  {
    hide DistinctIds;
    if clients != [] {
      DistinctTail(clients);
      if clients[0].id != id {
        DisconnectedMembers(clients[1..], id);
        DistinctCons(clients, Disconnected(clients[1..], id));
      }
    }
  }

  lemma DistinctTail(clients: seq<Client>)
    requires clients != [] && DistinctIds(clients)
    ensures DistinctIds(clients[1..])
  {
  }

  lemma DistinctCons(clients: seq<Client>, rest: seq<Client>)
    requires clients != [] && DistinctIds(clients) && DistinctIds(rest)
    requires forall c :: c in rest ==> c in clients[1..]
    ensures DistinctIds([clients[0]] + rest)
  {
    forall k | 0 <= k < |rest|
      ensures rest[k].id != clients[0].id
    {
      assert rest[k] in rest;
      var j :| 1 <= j < |clients| && clients[j] == rest[k];
    }
  }

  function FirstIncomplete(wrote: seq<int>, len: nat): (n: nat)
    ensures n <= |wrote| && (forall k :: 0 <= k < n ==> wrote[k] == len) && (n < |wrote| ==> wrote[n] != len)
  {
    if wrote == [] || wrote[0] != len then 0 else 1 + FirstIncomplete(wrote[1..], len)
  }

  lemma StopsAtPosition(h: Hub, p: Sample, wrote: seq<int>, k: nat)
    requires |wrote| == |h.clients| && DistinctIds(h.clients) && k < |h.clients|
    ensures StopsBy(h, Dispatch(p, wrote), h.clients[k].id) <==> FirstIncomplete(wrote, |Pack(p)|) <= k
  {
    hide Pack;
    var first := FirstIncomplete(wrote, |Pack(p)|);
    if first <= k {
      assert wrote[first] != |Pack(p)| && h.clients[k].id == h.clients[k].id;
    }
  }

  lemma ServedDispatch(h: Hub, es: seq<Event>, p: Sample, wrote: seq<int>)
    requires AllServed(h, es) && |wrote| == |End(h, es).clients|
    ensures AllServed(h, es + [Dispatch(p, wrote)])
  {
    hide End, StopsBy, Interrupted, Served, Pack, DistinctIds;
    var e: Event := Dispatch(p, wrote);
    var s, es' := End(h, es), es + [e];
    assert es'[..|es|] == es;
    EndSnoc(h, es, e);
    var r := End(h, es').clients;
    var first := FirstIncomplete(wrote, |Pack(p)|);
    WrittenAt(s.clients, Pack(p), wrote, first);
    SentIds(s.clients, r);
    forall k | 0 <= k < |r|
      ensures Served(r[k], s.stream + [p], Interrupted(h, es', r[k]))
    {
      var c := s.clients[k];
      assert Pack(p)[..|Pack(p)|] == Pack(p);
      ServedNext(c, s.stream, p, wrote[k], Interrupted(h, es, c), k <= first);
      assert r[k] == if k <= first then Taken(c, Pack(p), wrote[k]) else c;
      InterruptedSnoc(h, es', c);
      StopsAtPosition(s, p, wrote, k);
      ServedJoined(c, s.stream, Interrupted(h, es, c));
      SameInterruptions(h, es', c, r[k]);
    }
  }

  lemma EndSnoc(h: Hub, es: seq<Event>, e: Event)
    ensures End(h, es + [e]) == Next(End(h, es), e)
  {
    assert (es + [e])[..|es|] == es;
  }

  lemma SentIds(a: seq<Client>, b: seq<Client>)
    requires |a| == |b| && DistinctIds(a) && forall k :: 0 <= k < |a| ==> a[k].id == b[k].id
    ensures DistinctIds(b)
  {
  }

  lemma ServedJoined(c: Client, stream: seq<Sample>, interrupted: bool)
    requires Served(c, stream, interrupted)
    ensures c.joined <= |stream|
  {
  }

  lemma SameInterruptions(h: Hub, es: seq<Event>, c: Client, d: Client)
    requires c.id == d.id && c.joined == d.joined
    ensures Interrupted(h, es, c) <==> Interrupted(h, es, d)
  {
  }

  /** Joining and leaving change nothing about the clients that stay. */
  lemma ServedOther(h: Hub, es: seq<Event>, e: Event)
    requires AllServed(h, es) && Possible(End(h, es), e) && !e.Dispatch?
    ensures AllServed(h, es + [e])
  {
    hide End, Served, DistinctIds;
    var s, es' := End(h, es), es + [e];
    EndSnoc(h, es, e);
    assert es'[..|es|] == es;
    var r := End(h, es').clients;
    NextIds(s, e);
    forall k | 0 <= k < |r|
      ensures Served(r[k], s.stream, Interrupted(h, es', r[k]))
    {
      InterruptedSnoc(h, es', r[k]);
      hide Interrupted;
      if r[k] in s.clients {
      } else {
        FreshClient(h, es, r[k]);
        ServedFresh(r[k], s.stream);
      }
    }
  }

  lemma NextIds(h: Hub, e: Event)
    requires Possible(h, e) && DistinctIds(h.clients) && !e.Dispatch?
    ensures DistinctIds(Next(h, e).clients)
    ensures forall c :: c in Next(h, e).clients ==> c in h.clients || c == Client(c.id, |h.stream|, "")
  {
    if e.Leave? {
      DisconnectedMembers(h.clients, e.id);
    }
  }

  lemma ServedFresh(c: Client, stream: seq<Sample>)
    requires c == Client(c.id, |stream|, "")
    ensures Served(c, stream, false)
  {
    assert stream[|stream|..] == [];
  }

  lemma {:induction false} RunServes(h: Hub, es: seq<Event>)
    requires PossibleRun(h, es) && h.clients == []
    ensures AllServed(h, es)
    decreases |es|
  {
    hide AllServed, Possible;
    if es == [] {
      NobodyServed(h);
    } else {
      var n := |es| - 1;
      var es' := es[..n];
      assert es == es' + [es[n]];
      assert forall t :: 0 <= t < n ==> es'[..t] == es[..t];
      assert Possible(End(h, es[..n]), es[n]);
      RunServes(h, es');
      ServedSnoc(h, es', es[n]);
    }
  }

  lemma NobodyServed(h: Hub)
    requires h.clients == []
    ensures AllServed(h, [])
  {
  }

  lemma ServedSnoc(h: Hub, es: seq<Event>, e: Event)
    requires AllServed(h, es) && Possible(End(h, es), e)
    ensures AllServed(h, es + [e])
  {
    hide AllServed, End;
    match e
    case Dispatch(p, wrote) => ServedDispatch(h, es, p, wrote);
    case Join(_) => ServedOther(h, es, e);
    case Leave(_) => ServedOther(h, es, e);
  }

  ghost predicate Has(clients: seq<Client>, id: nat) {
    exists k :: 0 <= k < |clients| && clients[k].id == id
  }

  /** The id joined, and has not left since. */
  ghost predicate StillHere(es: seq<Event>, id: nat) {
    exists t :: 0 <= t < |es| && es[t] == Join(id) && forall u :: t < u < |es| ==> es[u] != Leave(id)
  }

  lemma StillHereSnoc(es: seq<Event>, e: Event, id: nat)
    ensures StillHere(es + [e], id) <==> e == Join(id) || (StillHere(es, id) && e != Leave(id))
  {
    var es' := es + [e];
    assert forall u :: 0 <= u < |es| ==> es'[u] == es[u];
    if StillHere(es', id) && e != Join(id) {
      var t :| 0 <= t < |es'| && es'[t] == Join(id) && forall u :: t < u < |es'| ==> es'[u] != Leave(id);
      assert es[t] == Join(id);
      assert es'[|es|] == e;
    }
    if StillHere(es, id) && e != Leave(id) {
      var t :| 0 <= t < |es| && es[t] == Join(id) && forall u :: t < u < |es| ==> es[u] != Leave(id);
      assert es'[t] == Join(id);
    }
    assert es'[|es|] == e;
  }

  /** In list order, who comes first joined first. */
  ghost predicate InJoinOrder(clients: seq<Client>, len: nat) {
    && (forall i :: 0 <= i < |clients| ==> clients[i].joined <= len)
    && (forall i, j :: 0 <= i < j < |clients| ==> clients[i].joined <= clients[j].joined)
  }

  lemma {:induction false} DisconnectedInOrder(clients: seq<Client>, id: nat, len: nat)
    requires InJoinOrder(clients, len)
    ensures InJoinOrder(Disconnected(clients, id), len)
    ensures forall k :: 0 <= k < |Disconnected(clients, id)| ==> Disconnected(clients, id)[k] in clients
  {
    if clients != [] && clients[0].id != id {
      DisconnectedInOrder(clients[1..], id, len);
      var r := Disconnected(clients[1..], id);
      forall k | 0 <= k < |r|
        ensures clients[0].joined <= r[k].joined
      {
        assert r[k] in clients[1..];
        var j :| 1 <= j < |clients| && clients[j] == r[k];
      }
    }
  }

  lemma StepClients(h: Hub, e: Event, id: nat)
    requires Possible(h, e) && DistinctIds(h.clients) && InJoinOrder(h.clients, |h.stream|)
    ensures var n := Next(h, e);
      && InJoinOrder(n.clients, |n.stream|)
      && (Has(n.clients, id) <==> e == Join(id) || (Has(h.clients, id) && e != Leave(id)))
  {
    match e
    case Join(i) =>
      var c := Client(i, |h.stream|, "");
      assert (h.clients + [c])[|h.clients|] == c;
      assert forall k :: 0 <= k < |h.clients| ==> (h.clients + [c])[k] == h.clients[k];
    case Leave(i) =>
      DisconnectedInOrder(h.clients, i, |h.stream|);
      DisconnectedExactly(h.clients, i);
      HasMembers(h.clients, Disconnected(h.clients, i), i, id);
    case Dispatch(p, wrote) =>
      hide Pack, Written;
      SameIds(h.clients, Pack(p), wrote);
      var r := Next(h, e).clients;
      assert forall k :: 0 <= k < |r| ==> r[k].id == h.clients[k].id && r[k].joined == h.clients[k].joined;
  }

  lemma SameIds(clients: seq<Client>, packet: string, wrote: seq<int>)
    requires |wrote| == |clients|
    ensures var r := Written(clients, packet, wrote);
      forall k :: 0 <= k < |clients| ==> r[k].id == clients[k].id && r[k].joined == clients[k].joined
  {
    WrittenAt(clients, packet, wrote, FirstIncomplete(wrote, |packet|));
    hide Written;
  }

  lemma HasMembers(clients: seq<Client>, left: seq<Client>, gone: nat, id: nat)
    requires forall c :: c in left <==> c in clients && c.id != gone
    ensures Has(left, id) <==> Has(clients, id) && id != gone
  {
    if Has(clients, id) && id != gone {
      var k :| 0 <= k < |clients| && clients[k].id == id;
      assert clients[k] in left;
    }
    if Has(left, id) {
      var k :| 0 <= k < |left| && left[k].id == id;
      assert left[k] in clients;
    }
  }

  /** Over every run, exactly those are connected who joined and have not left since, and the list, in
      which dispatches write, keeps the order of joining. */
  lemma {:induction false} WhoIsConnected(h: Hub, es: seq<Event>, id: nat)
    requires PossibleRun(h, es) && h.clients == []
    ensures Has(End(h, es).clients, id) <==> StillHere(es, id)
    ensures InJoinOrder(End(h, es).clients, |End(h, es).stream|)
    decreases |es|
  {
    hide Possible, Has, StillHere, InJoinOrder, Next, DistinctIds, Served, Interrupted;
    if es == [] {
      NobodyHere(h, id);
    } else {
      var n := |es| - 1;
      var es' := es[..n];
      assert es == es' + [es[n]];
      assert forall t :: 0 <= t < n ==> es'[..t] == es[..t];
      assert Possible(End(h, es[..n]), es[n]);
      WhoIsConnected(h, es', id);
      RunServes(h, es');
      StepClients(End(h, es'), es[n], id);
      StillHereSnoc(es', es[n], id);
    }
  }

  lemma NobodyHere(h: Hub, id: nat)
    requires h.clients == []
    ensures !Has(h.clients, id) && !StillHere([], id) && InJoinOrder(h.clients, |h.stream|)
  {
  }

  /** Over every run of joins, leaves and dispatches: a connected client was sent exactly the packets
      dispatched since it joined if and only if in every one of those dispatches its write, and that of
      each client before it in the list, was complete; its bytes then read back as those samples. */
  lemma ClientStream(h: Hub, es: seq<Event>, k: nat)
    requires PossibleRun(h, es) && h.clients == [] && k < |End(h, es).clients|
    ensures var e := End(h, es);
      var c := e.clients[k];
      && c.joined <= |e.stream|
      && (c.got == PackAll(e.stream[c.joined..]) <==> !Interrupted(h, es, c))
      && (!Interrupted(h, es, c) ==> ReadAll(c.got) == Read(e.stream[c.joined..], ""))
  {
    hide End, Interrupted, ReadAll;
    RunServes(h, es);
    var e := End(h, es);
    var c := e.clients[k];
    StreamBack(e.stream[c.joined..]);
  }

  /** While no write fails, every client has all packets since it joined. */
  lemma AllComplete(h: Hub, es: seq<Event>, k: nat)
    requires PossibleRun(h, es) && h.clients == [] && k < |End(h, es).clients|
    requires forall t, i :: 0 <= t < |es| && es[t].Dispatch? && 0 <= i < |es[t].wrote| ==>
      es[t].wrote[i] == |Pack(es[t].sample)|
    ensures var c := End(h, es).clients[k];
      c.joined <= |End(h, es).stream| && c.got == PackAll(End(h, es).stream[c.joined..])
  {
    hide End, PossibleRun, Pack;
    ClientStream(h, es, k);
  }
}
