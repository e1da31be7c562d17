/** The framed session (`TcpSession.cs`): packets out of a stream that arrives in pieces, and a write
    buffer that the socket takes in pieces. */
module NetSession {
  import opened NetPackets

  const MAX_SEQ: nat := 65000

  // ---------- what the stream says ----------

  /** One packet as it was before encryption. */
  datatype Msg = Msg(payload: seq<Byte>, sys: bool)

  /** The seed from a number, byte by byte (`SetSeed`). */
  function SeedBytes(param: nat, n: nat): (r: seq<Byte>)
    ensures |r| == n
  {
    if n == 0 then [] else [param % 255 + 1] + SeedBytes(param / 19, n - 1)
  }

  /** What receiving depends on and changes: the key, whether the session is connected, all packets
      that came, and the payloads handed to `OnReceive`. */
  datatype Receiver = Receiver(seed: seq<Byte>, len: nat, connected: bool, came: seq<Msg>, delivered: seq<seq<Byte>>)

  /** The number in a system packet of the given type. */
  function SysParam(payload: seq<Byte>): int {
    if |payload| < 6 then -1 else 65536 * Word(payload[2], payload[3]) + Word(payload[4], payload[5])
  }

  function SysType(payload: seq<Byte>): int { if |payload| < 2 then -1 else Word(payload[0], payload[1]) }

  const SET_SEED: int := 1
  const KEEP_ALIVE: int := 2
  const ALIVE_ACK: nat := 3

  /** `HandleSysPacket`, as far as it concerns receiving. */
  function HandleSys(r: Receiver, payload: seq<Byte>): Receiver {
    if SysType(payload) == SET_SEED && SysParam(payload) >= 0 then
      var p := SysParam(payload);
      if p == 0 then r.(connected := true) else r.(seed := SeedBytes(p, SEED_SIZE), len := SEED_SIZE, connected := true)
    else r
  }

  /** A packet has come: system packets are handled, others are delivered when the session is connected. */
  function Accept(r: Receiver, m: Msg): Receiver {
    var c := r.(came := r.came + [m]);
    if m.sys then HandleSys(c, m.payload) else if r.connected then c.(delivered := r.delivered + [m.payload]) else c
  }

  /** The packet in the first `n` bytes; none if the key has too few bytes to decrypt it. */
  datatype Option<T> = None | Some(value: T)

  function PacketIn(r: Receiver, input: seq<Byte>, n: nat): Option<Msg>
    requires HEAD_SIZE < n <= |input|
  {
    var data := input[HEAD_SIZE..n];
    if !Has(input[0], Encrypted) then Some(Msg(data, Has(input[0], System)))
    else if Keyed(r.seed, r.len, |data|) then Some(Msg(Crypt(data, r.seed, r.len), Has(input[0], System)))
    else None
  }

  datatype End = Waiting | Dead | Crashed

  /** The state after all complete packets have been received, the bytes that are left, and why it
      stopped: for more bytes, at something that is no packet, or on an error while decrypting. */
  datatype Outcome = Outcome(r: Receiver, rest: seq<Byte>, end: End)

  function Receive(r: Receiver, input: seq<Byte>): Outcome
    decreases |input|
  {
    match HeadOf(input)
    case NeedMore => Outcome(r, input, Waiting)
    case Bad => Outcome(r, input, Dead)
    case Whole(n) =>
      match PacketIn(r, input, n)
      case None => Outcome(r, input[n..], Crashed)
      case Some(m) => Receive(Accept(r, m), input[n..])
  }

  lemma Unfold(r: Receiver, input: seq<Byte>)
    ensures Receive(r, input) == match HeadOf(input)
      case NeedMore => Outcome(r, input, Waiting)
      case Bad => Outcome(r, input, Dead)
      case Whole(n) =>
        match PacketIn(r, input, n)
        case None => Outcome(r, input[n..], Crashed)
        case Some(m) => Receive(Accept(r, m), input[n..])
  {}

  lemma StaysConnected(r: Receiver, payload: seq<Byte>)
    ensures r.connected ==> HandleSys(r.(came := r.came + [Msg(payload, true)]), payload).connected
    ensures r.connected ==> HandleSys(r, payload).connected
  {}

  /** The stream may be cut anywhere: what came is received, and the rest is kept for what follows. */
  lemma {:induction false} ReceiveMore(r: Receiver, a: seq<Byte>, b: seq<Byte>)
    ensures var o := Receive(r, a);
      Receive(r, a + b) == if o.end.Waiting? then Receive(o.r, o.rest + b) else Outcome(o.r, o.rest + b, o.end)
    decreases |a|
  {
    hide PacketIn, Accept, HeadOf;
    if !HeadOf(a).NeedMore? {
      HeadStays(a, b);
      if HeadOf(a).Whole? {
        var n := HeadOf(a).n;
        WholeFits(a);
        assert (a + b)[n..] == a[n..] + b && (a + b)[HEAD_SIZE..n] == a[HEAD_SIZE..n];
        SamePacket(r, a, b, n);
        if PacketIn(r, a, n).Some? { ReceiveMore(Accept(r, PacketIn(r, a, n).value), a[n..], b); }
      }
    }
  }

  lemma WholeFits(a: seq<Byte>)
    requires HeadOf(a).Whole?
    ensures HEAD_SIZE < HeadOf(a).n <= |a|
  {}

  lemma SamePacket(r: Receiver, a: seq<Byte>, b: seq<Byte>, n: nat)
    requires HEAD_SIZE < n <= |a|
    ensures PacketIn(r, a + b, n) == PacketIn(r, a, n)
  {
    assert (a + b)[HEAD_SIZE..n] == a[HEAD_SIZE..n];
  }

  // ---------- what a peer writes ----------

  /** The flags of a message: system packets are never encrypted, and others are when `encrypt` is set. */
  function FlagsOf(m: Msg, encrypt: bool, compress: bool): Byte {
    var base: Byte := 16 * PROTOCOL_FLAG;
    if m.sys then With(base, System)
    else
      var e := if encrypt then With(base, Encrypted) else base;
      if compress then With(e, Compressed) else e
  }

  /** The `k`-th packet carries this number. */
  function SeqNo(k: nat): nat { if k == 0 then 0 else (k - 1) % MAX_SEQ + 1 }

  /** A message, and how it is sent. */
  datatype Sent = Sent(m: Msg, encrypt: bool, compress: bool)

  predicate Sendable(r: Receiver, s: Sent) {
    |s.m.payload| < 65536 && (s.encrypt && !s.m.sys ==> Keyed(r.seed, r.len, |s.m.payload|))
  }

  /** The receiver can decrypt each message with the key that the messages before it have set. */
  predicate AllSendable(r: Receiver, msgs: seq<Sent>)
    decreases |msgs|
  {
    msgs == [] || (Sendable(r, msgs[0]) && AllSendable(Accept(r, msgs[0].m), msgs[1..]))
  }

  /** The stream of a peer that encrypts with the key it has announced. The receiver does not look at
      the numbers of the packets, so they may be any. */
  function Stream(r: Receiver, msgs: seq<Sent>, nums: seq<nat>): seq<Byte>
    requires AllSendable(r, msgs) && |nums| == |msgs|
    decreases |msgs|
  {
    if msgs == [] then [] else Written(r, msgs[0], nums[0]) + Stream(Accept(r, msgs[0].m), msgs[1..], nums[1..])
  }

  function Written(r: Receiver, s: Sent, k: nat): seq<Byte>
    requires Sendable(r, s)
  {
    FrameOf(FlagsOf(s.m, s.encrypt, s.compress), SeqNo(k), if s.encrypt
        && !s.m.sys then Crypt(s.m.payload, r.seed, r.len) else s.m.payload)
  }

  function AcceptAll(r: Receiver, msgs: seq<Sent>): Receiver
    decreases |msgs|
  {
    if msgs == [] then r else AcceptAll(Accept(r, msgs[0].m), msgs[1..])
  }

  predicate LegalSize(m: Msg) { 1 <= |m.payload| <= MAX_PAYLOAD }

  lemma FlagsAre(m: Msg, encrypt: bool, compress: bool)
    ensures var f := FlagsOf(m, encrypt, compress);
      f / 16 == PROTOCOL_FLAG && Has(f, System) == m.sys && Has(f, Encrypted) == (encrypt && !m.sys)
  {
    assert With(80, System) == 84 && With(80, Encrypted) == 81 && With(80, Compressed) == 82
        && With(81, Compressed) == 83;
    assert Has(84, System) && !Has(84, Encrypted);
    assert !Has(80, System) && !Has(80, Encrypted) && !Has(82, System) && !Has(82, Encrypted);
    assert !Has(81, System) && Has(81, Encrypted) && !Has(83, System) && Has(83, Encrypted);
    assert FlagsOf(m, encrypt, compress) == if m.sys then 84 else if encrypt then if compress then 83 else 81
        else if compress then 82 else 80;
    hide Has, With, FlagsOf;
  }

  /** A written packet is read back by a receiver with the same key, if its size is legal; otherwise
      the receiver takes it for no packet. */
  lemma PacketReadBack(r: Receiver, s: Sent, k: nat, more: seq<Byte>)
    requires Sendable(r, s)
    ensures var f := Written(r, s, k);
      if LegalSize(s.m) then HeadOf(f + more) == Whole(|f|) && PacketIn(r, f + more, |f|) == Some(s.m)
          && (f + more)[|f|..] == more
      else HeadOf(f + more) == Bad
  {
    var flags := FlagsOf(s.m, s.encrypt, s.compress);
    FlagsAre(s.m, s.encrypt, s.compress);
    hide FlagsOf, HeadOf, Has, FrameOf, SeqNo;
    var data := if s.encrypt && !s.m.sys then Crypt(s.m.payload, r.seed, r.len) else s.m.payload;
    HeadOfFrame(flags, SeqNo(k), data, more) by { SeqSmall(k); }
    if s.encrypt && !s.m.sys { CryptTwice(s.m.payload, r.seed, r.len); }
  }

  lemma SeqSmall(k: nat)
    ensures SeqNo(k) < 65536
  {}

  /** The first packet of a stream. */
  lemma StreamStep(r: Receiver, msgs: seq<Sent>, nums: seq<nat>)
    requires AllSendable(r, msgs) && |nums| == |msgs| && msgs != []
    ensures Sendable(r, msgs[0]) && AllSendable(Accept(r, msgs[0].m), msgs[1..])
    ensures Receive(r, Stream(r, msgs, nums)) ==
      if LegalSize(msgs[0].m) then Receive(Accept(r, msgs[0].m), Stream(Accept(r, msgs[0].m), msgs[1..], nums[1..]))
      else Outcome(r, Stream(r, msgs, nums), Dead)
  {
    var more := Stream(Accept(r, msgs[0].m), msgs[1..], nums[1..]);
    PacketReadBack(r, msgs[0], nums[0], more);
    Unfold(r, Stream(r, msgs, nums));
    hide Receive, PacketIn, HeadOf, Written, LegalSize, Accept, Sendable;
  }

  /** Reading a peer's stream to its end gives its messages in order, and nothing is left over. */
  lemma {:induction false} StreamReceived(r: Receiver, msgs: seq<Sent>, nums: seq<nat>)
    requires AllSendable(r, msgs) && |nums| == |msgs| && forall i | 0 <= i < |msgs| :: LegalSize(msgs[i].m)
    ensures Receive(r, Stream(r, msgs, nums)) == Outcome(AcceptAll(r, msgs), [], Waiting)
    decreases |msgs|
  {
    if msgs == [] {
      EmptyWaits(r);
    } else {
      StreamStep(r, msgs, nums);
      hide Receive, Stream, LegalSize, Accept, Sendable;
      StreamReceived(Accept(r, msgs[0].m), msgs[1..], nums[1..]);
    }
  }

  /** The messages before the first one of an illegal size: an empty one, or one of more than 16384 bytes. */
  function LegalPart(msgs: seq<Sent>): seq<Sent> {
    if msgs == [] || !LegalSize(msgs[0].m) then [] else [msgs[0]] + LegalPart(msgs[1..])
  }

  /** The messages before the first one of an illegal size are received, and there the session goes
      dead; so it stays alive exactly when all sizes are legal. */
  lemma {:induction false} DeadAtIllegalSize(r: Receiver, msgs: seq<Sent>, nums: seq<nat>)
    requires AllSendable(r, msgs) && |nums| == |msgs|
    ensures var o := Receive(r, Stream(r, msgs, nums));
      o.r == AcceptAll(r, LegalPart(msgs)) && o.end == if LegalPart(msgs) == msgs then Waiting else Dead
    decreases |msgs|
  {
    if msgs == [] {
      EmptyWaits(r);
    } else {
      StreamStep(r, msgs, nums);
      hide Receive, Stream, LegalSize, Accept, Sendable;
      if LegalSize(msgs[0].m) {
        DeadAtIllegalSize(Accept(r, msgs[0].m), msgs[1..], nums[1..]);
        assert LegalPart(msgs)[1..] == LegalPart(msgs[1..]);
        assert msgs == [msgs[0]] + msgs[1..];
      }
    }
  }

  /** An empty payload is sent, and the session that receives it goes dead. */
  lemma EmptyKills(r: Receiver, num: nat)
    ensures var s := Sent(Msg([], false), false, true);
      && AllSendable(r, [s]) && HeadOf(Stream(r, [s], [num])) == Bad
      && Receive(r, Stream(r, [s], [num])) == Outcome(r, Stream(r, [s], [num]), Dead)
  {
    var s := Sent(Msg([], false), false, true);
    PacketReadBack(r, s, num, []);
    assert Written(r, s, num) + [] == Stream(r, [s], [num]);
    Unfold(r, Stream(r, [s], [num]));
    hide Receive, PacketIn, HeadOf, Written, FrameOf;
  }

  /** The payloads of the messages that are no system packets. */
  function DataOf(msgs: seq<Sent>): seq<seq<Byte>> {
    if msgs == [] then [] else (if msgs[0].m.sys then [] else [msgs[0].m.payload]) + DataOf(msgs[1..])
  }

  function MsgsOf(msgs: seq<Sent>): seq<Msg> { if msgs == [] then [] else [msgs[0].m] + MsgsOf(msgs[1..]) }

  /** Once connected, every message comes with its system flag, and all data is delivered. */
  lemma {:induction false} AllDelivered(r: Receiver, msgs: seq<Sent>)
    ensures AcceptAll(r, msgs).came == r.came + MsgsOf(msgs)
    ensures r.connected ==> AcceptAll(r, msgs).delivered == r.delivered + DataOf(msgs) && AcceptAll(r, msgs).connected
    decreases |msgs|
  {
    if msgs != [] { AllDelivered(Accept(r, msgs[0].m), msgs[1..]); }
  }

  // ---------- which packets connect ----------

  /** A system packet with the bytes 0 and 1 and four bytes of a number. */
  predicate Announces(m: Msg) { m.sys && |m.payload| >= 6 && m.payload[0] == 0 && m.payload[1] == 1 }

  /** The number, its high byte first. */
  function Announced(m: Msg): nat
    requires Announces(m)
  {
    var a: int, b: int, c: int, d: int := m.payload[2], m.payload[3], m.payload[4], m.payload[5];
    16777216 * a + 65536 * b + 256 * c + d
  }

  /** Exactly these packets connect a session; they set the key of their number, except for zero, which
      turns encryption off. Nothing else changes the key. */
  lemma ConnectsExactly(r: Receiver, m: Msg)
    ensures Accept(r, m).connected <==> r.connected || Announces(m)
    ensures Announces(m) && Announced(m) > 0 ==>
      Accept(r, m).seed == SeedBytes(Announced(m), 16) && Accept(r, m).len == 16
    ensures !Announces(m) || Announced(m) == 0 ==> Accept(r, m).seed == r.seed && Accept(r, m).len == r.len
  {
    hide SeedBytes;
  }

  predicate SomeAnnounces(msgs: seq<Sent>) { exists i :: 0 <= i < |msgs| && Announces(msgs[i].m) }

  /** The payloads of the messages behind the first one that connects, system packets aside. */
  function Behind(msgs: seq<Sent>): seq<seq<Byte>> {
    if msgs == [] then [] else if Announces(msgs[0].m) then DataOf(msgs[1..]) else Behind(msgs[1..])
  }

  /** A session gets connected exactly by such a packet, and what comes behind the first one is delivered. */
  lemma {:induction false} DeliveredBehind(r: Receiver, msgs: seq<Sent>)
    requires !r.connected
    ensures AcceptAll(r, msgs).connected <==> SomeAnnounces(msgs)
    ensures AcceptAll(r, msgs).delivered == r.delivered + Behind(msgs)
    ensures AcceptAll(r, msgs).came == r.came + MsgsOf(msgs)
    decreases |msgs|
  {
    if msgs != [] {
      var n := Accept(r, msgs[0].m);
      ConnectsExactly(r, msgs[0].m);
      NotYet(r, msgs[0].m);
      hide Announces, Accept, DataOf;
      if n.connected {
        AllDelivered(n, msgs[1..]);
      } else {
        DeliveredBehind(n, msgs[1..]);
        SomeLater(msgs);
      }
      assert r.came + ([msgs[0].m] + MsgsOf(msgs[1..])) == (r.came + [msgs[0].m]) + MsgsOf(msgs[1..]);
    }
  }

  lemma NotYet(r: Receiver, m: Msg)
    requires !r.connected
    ensures Accept(r, m).delivered == r.delivered && Accept(r, m).came == r.came + [m]
  {}

  lemma SomeLater(msgs: seq<Sent>)
    requires msgs != [] && !Announces(msgs[0].m)
    ensures SomeAnnounces(msgs) <==> SomeAnnounces(msgs[1..])
  {
    hide Announces;
    if i :| 0 <= i < |msgs| && Announces(msgs[i].m) { assert msgs[1..][i - 1] == msgs[i]; }
    if i :| 0 <= i < |msgs[1..]| && Announces(msgs[1..][i].m) { assert msgs[i + 1] == msgs[1..][i]; }
  }

  /** A new session: no key, not connected, and nothing has come. */
  function NewReceiver(): Receiver { Receiver(seq(16, _ => 0), 0, false, [], []) }

  /** From a new session on, however the stream of the peer is cut: the session is connected in the end
      exactly if a message announced a number, and all data behind the first such message is delivered in
      order. */
  lemma ConnectsAndDelivers(msgs: seq<Sent>, nums: seq<nat>, pieces: seq<seq<Byte>>)
    requires AllSendable(NewReceiver(), msgs) && |nums| == |msgs|
    requires forall i | 0 <= i < |msgs| :: LegalSize(msgs[i].m)
    requires Joined(pieces) == Stream(NewReceiver(), msgs, nums)
    ensures var x := Run(Outcome(NewReceiver(), [], Waiting), pieces);
      && x.end == Waiting && x.rest == [] && x.r.came == MsgsOf(msgs)
      && x.r.connected == SomeAnnounces(msgs) && x.r.delivered == Behind(msgs)
  {
    var r := NewReceiver();
    hide Receive;
    EmptyWaits(r);
    assert [] + Joined(pieces) == Joined(pieces);
    RunIsReceive(Outcome(r, [], Waiting), pieces);
    StreamReceived(r, msgs, nums);
    DeliveredBehind(r, msgs);
  }

  /** In particular: if the first message announces a number, all data behind it is delivered. */
  lemma FirstConnects(msgs: seq<Sent>)
    requires msgs != [] && Announces(msgs[0].m)
    ensures SomeAnnounces(msgs) && Behind(msgs) == DataOf(msgs[1..])
    ensures var k := AcceptAll(NewReceiver(), msgs[..1]);
      k.connected && if Announced(msgs[0].m) == 0 then k.len == 0
                     else k.len == 16 && k.seed == SeedBytes(Announced(msgs[0].m), 16)
  {
    ConnectsExactly(NewReceiver(), msgs[0].m);
    assert msgs[..1][1..] == [];
    hide SeedBytes, Announces, Accept;
  }

  // ---------- pieces ----------

  function Joined(pieces: seq<seq<Byte>>): seq<Byte> { if pieces == [] then [] else pieces[0] + Joined(pieces[1..]) }

  /** The receiver over a run: a piece arrives, and all complete packets are taken. */
  function Run(o: Outcome, pieces: seq<seq<Byte>>): Outcome
    decreases |pieces|
  {
    if pieces == [] || !o.end.Waiting? then o else Run(Receive(o.r, o.rest + pieces[0]), pieces[1..])
  }

  /** However the stream is cut, a run ends like the reading of the whole stream. */
  lemma {:induction false} RunIsReceive(o: Outcome, pieces: seq<seq<Byte>>)
    requires o.end.Waiting? && Receive(o.r, o.rest) == o
    ensures var w := Receive(o.r, o.rest + Joined(pieces)); var x := Run(o, pieces);
      x.r == w.r && x.end == w.end && (x.end.Waiting? ==> x.rest == w.rest)
    decreases |pieces|
  {
    if pieces == [] {
      assert o.rest + [] == o.rest;
    } else {
      var next := Receive(o.r, o.rest + pieces[0]);
      assert o.rest + Joined(pieces) == (o.rest + pieces[0]) + Joined(pieces[1..]);
      ReceiveMore(o.r, o.rest + pieces[0], Joined(pieces[1..]));
      if next.end.Waiting? {
        Settled(o.r, o.rest + pieces[0]);
        RunIsReceive(next, pieces[1..]);
      }
    }
  }

  /** Nothing more can be taken. */
  lemma {:induction false} Settled(r: Receiver, input: seq<Byte>)
    ensures var o := Receive(r, input); o.end.Waiting? ==> HeadOf(o.rest).NeedMore? && Receive(o.r, o.rest) == o
    decreases |input|
  {
    hide PacketIn, Accept;
    if HeadOf(input).Whole? && PacketIn(r, input, HeadOf(input).n).Some? {
      Settled(Accept(r, PacketIn(r, input, HeadOf(input).n).value), input[HeadOf(input).n..]);
    }
  }

  /** For every list of messages with legal sizes and every way to cut their stream: the receiver
      with the same key gets the same messages in order, keeps no byte, and never goes dead. */
  lemma ChunksReceived(r: Receiver, msgs: seq<Sent>, nums: seq<nat>, pieces: seq<seq<Byte>>)
    requires AllSendable(r, msgs) && |nums| == |msgs| && (forall i | 0 <= i < |msgs| :: LegalSize(msgs[i].m))
        && Joined(pieces) == Stream(r, msgs, nums)
    ensures var x := Run(Outcome(r, [], Waiting), pieces);
      && x.end == Waiting && x.rest == [] && x.r.came == r.came + MsgsOf(msgs)
      && (r.connected ==> x.r.delivered == r.delivered + DataOf(msgs))
  {
    hide Receive;
    EmptyWaits(r);
    assert [] + Joined(pieces) == Joined(pieces);
    RunIsReceive(Outcome(r, [], Waiting), pieces);
    StreamReceived(r, msgs, nums);
    AllDelivered(r, msgs);
  }

  lemma EmptyWaits(r: Receiver)
    ensures Receive(r, []) == Outcome(r, [], Waiting)
  {}
}
