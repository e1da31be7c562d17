/** `TcpSession` as it runs: the read buffer and the write buffer are fields that its methods change. */
module NetTcp {
  import opened NetPackets
  import opened NetSession

  datatype State = WaitingSeed | Connected | Closed

  datatype SendResult = Queued | NotConnected | Overflow

  datatype RecvResult = Got | Nothing | Failed

  /** A packet that was sent: the message, the key in force, and its number. */
  datatype Entry = Entry(s: Sent, seed: seq<Byte>, len: nat, num: nat)

  predicate EntryOk(e: Entry) { |e.s.m.payload| < 65536 && (e.s.encrypt ==> Keyed(e.seed, e.len, |e.s.m.payload|)) }

  function Bytes(e: Entry): seq<Byte>
    requires EntryOk(e)
  {
    FrameOf(FlagsOf(e.s.m, e.s.encrypt, e.s.compress), SeqNo(e.num), if e.s.encrypt
        && !e.s.m.sys then Crypt(e.s.m.payload, e.seed, e.len) else e.s.m.payload)
  }

  predicate LogOk(log: seq<Entry>) { forall i | 0 <= i < |log| :: EntryOk(log[i]) }

  /** All frames, one after the other. */
  function AllBytes(log: seq<Entry>): seq<Byte>
    requires LogOk(log)
  {
    if log == [] then [] else AllBytes(log[..|log| - 1]) + Bytes(log[|log| - 1])
  }

  function Nums(log: seq<Entry>): (r: seq<nat>)
    ensures |r| == |log| && forall i | 0 <= i < |log| :: r[i] == log[i].num
  {
    if log == [] then [] else Nums(log[..|log| - 1]) + [log[|log| - 1].num]
  }

  lemma MoreNums(log: seq<Entry>, e: Entry)
    ensures Nums(log + [e]) == Nums(log) + [e.num]
  {
    assert (log + [e])[..|log|] == log;
  }

  // ---------- sequence numbers ----------

  /** A payload of this size or more does not fit its size field; sending it uses up a number. */
  const TOO_LONG: nat := 65536

  /** `sizes` are the sizes of all payloads that a connected session was given to send. Each uses a
      number, and these are the numbers of those that were sent. */
  function QueuedAt(sizes: seq<nat>): (r: seq<nat>)
    ensures |r| <= |sizes|
  {
    if sizes == [] then [] else
      var n := |sizes|;
      QueuedAt(sizes[..n - 1]) + (if sizes[n - 1] < TOO_LONG then [n] else [])
  }

  lemma MoreQueued(sizes: seq<nat>, size: nat)
    ensures QueuedAt(sizes + [size]) == QueuedAt(sizes) + (if size < TOO_LONG then [|sizes| + 1] else [])
  {
    assert (sizes + [size])[..|sizes|] == sizes;
  }

  /** How many of the payloads were too long. */
  function Lost(sizes: seq<nat>): nat {
    if sizes == [] then 0 else Lost(sizes[..|sizes| - 1]) + (if sizes[|sizes| - 1] < TOO_LONG then 0 else 1)
  }

  /** The numbers of the packets increase. */
  lemma {:induction false} NumbersIncrease(sizes: seq<nat>)
    ensures forall i | 0 <= i < |QueuedAt(sizes)| :: i < QueuedAt(sizes)[i] <= |sizes|
    ensures forall i, j | 0 <= i < j < |QueuedAt(sizes)| :: QueuedAt(sizes)[i] < QueuedAt(sizes)[j]
    ensures |QueuedAt(sizes)| + Lost(sizes) == |sizes|
    decreases |sizes|
  {
    if sizes != [] { NumbersIncrease(sizes[..|sizes| - 1]); }
  }

  /** The `k`-th frame carries the `k`-th number, which wraps around after 65000. */
  ghost predicate InSequence(nums: seq<nat>) { forall k | 0 <= k < |nums| :: SeqNo(nums[k]) == SeqNo(k + 1) }

  /** Before every payload that is sent, numbers have been lost in multiples of 65000 only. */
  ghost predicate FullRounds(sizes: seq<nat>) {
    forall j | 0 <= j < |sizes| && sizes[j] < TOO_LONG :: Lost(sizes[..j]) % MAX_SEQ == 0
  }

  lemma SameNumber(a: nat, lost: nat)
    requires a > 0
    ensures SeqNo(a + lost) == SeqNo(a) <==> lost % MAX_SEQ == 0
  {
    var q, m := (a - 1) / MAX_SEQ, (a - 1) % MAX_SEQ;
    var p, l := lost / MAX_SEQ, lost % MAX_SEQ;
    assert a + lost - 1 == MAX_SEQ * (q + p) + (m + l);
    WrapAround(q + p, m + l);
  }

  lemma WrapAround(q: nat, x: nat)
    requires x < 2 * MAX_SEQ
    ensures (MAX_SEQ * q + x) % MAX_SEQ == if x < MAX_SEQ then x else x - MAX_SEQ
  {}

  /** Frames carry the numbers in sequence if and only if numbers are lost in full rounds: exactly
      when, before every payload that fits, the count of those that do not is a multiple of 65000. */
  lemma {:induction false} InSequenceExactly(sizes: seq<nat>)
    ensures InSequence(QueuedAt(sizes)) <==> FullRounds(sizes)
    decreases |sizes|
  {
    if sizes != [] {
      var n := |sizes| - 1;
      var a, q := sizes[..n], QueuedAt(sizes[..n]);
      InSequenceExactly(a);
      NumbersIncrease(a);
      SameNumber(|q| + 1, Lost(a));
      hide SeqNo, Lost;
      forall j | 0 <= j < n ensures a[..j] == sizes[..j] && a[j] == sizes[j] {}
      RoundsAtEnd(sizes);
      if sizes[n] < TOO_LONG {
        assert QueuedAt(sizes) == q + [n + 1];
        SequenceAtEnd(q, n + 1);
      } else {
        assert QueuedAt(sizes) == q;
      }
    }
  }

  lemma RoundsAtEnd(sizes: seq<nat>)
    requires sizes != []
    ensures var n := |sizes| - 1;
      FullRounds(sizes) <==> FullRounds(sizes[..n]) && (sizes[n] < TOO_LONG ==> Lost(sizes[..n]) % MAX_SEQ == 0)
  {
    hide Lost;
    var n := |sizes| - 1;
    var a := sizes[..n];
    forall j | 0 <= j < n ensures a[..j] == sizes[..j] {}
    if FullRounds(a) && (sizes[n] < TOO_LONG ==> Lost(a) % MAX_SEQ == 0) {
      forall j | 0 <= j < |sizes| && sizes[j] < TOO_LONG ensures Lost(sizes[..j]) % MAX_SEQ == 0 {
        if j < n { assert a[j] == sizes[j]; }
      }
    }
    if FullRounds(sizes) {
      forall j | 0 <= j < n && a[j] < TOO_LONG ensures Lost(a[..j]) % MAX_SEQ == 0 { assert sizes[j] == a[j]; }
    }
  }

  lemma SequenceAtEnd(nums: seq<nat>, num: nat)
    ensures InSequence(nums + [num]) <==> InSequence(nums) && SeqNo(num) == SeqNo(|nums| + 1)
  {
    hide SeqNo;
    var t := nums + [num];
    if InSequence(t) {
      assert t[|nums|] == num;
      forall k | 0 <= k < |nums| ensures SeqNo(nums[k]) == SeqNo(k + 1) { assert t[k] == nums[k]; }
    }
  }

  /** No payload that is too long is followed by one that is sent. */
  ghost predicate LongOnesLast(sizes: seq<nat>) {
    forall i, j | 0 <= i < j < |sizes| && sizes[i] >= TOO_LONG :: sizes[j] >= TOO_LONG
  }

  /** So, as long as fewer than 65000 payloads were too long, the numbers are in sequence exactly when
      none of those is followed by a payload that is sent. */
  lemma InSequenceUnlessLost(sizes: seq<nat>)
    requires Lost(sizes) < MAX_SEQ
    ensures InSequence(QueuedAt(sizes)) <==> LongOnesLast(sizes)
  {
    hide SeqNo, InSequence, FullRounds, LongOnesLast, QueuedAt, Lost;
    InSequenceExactly(sizes);
    if FullRounds(sizes) { RoundsAreLast(sizes); }
    if LongOnesLast(sizes) { LastAreRounds(sizes); }
  }

  lemma RoundsAreLast(sizes: seq<nat>)
    requires FullRounds(sizes) && Lost(sizes) < MAX_SEQ
    ensures LongOnesLast(sizes)
  {
    hide Lost;
    forall i, j | 0 <= i < j < |sizes| && sizes[i] >= TOO_LONG ensures sizes[j] >= TOO_LONG {
      LostOne(sizes, i, j);
      LostGrows(sizes, j);
      Multiple(Lost(sizes[..j]));
    }
  }

  lemma Multiple(lost: nat)
    requires 0 < lost < MAX_SEQ
    ensures lost % MAX_SEQ != 0
  {}

  lemma LastAreRounds(sizes: seq<nat>)
    requires LongOnesLast(sizes)
    ensures FullRounds(sizes)
  {
    hide Lost;
    forall j | 0 <= j < |sizes| && sizes[j] < TOO_LONG ensures Lost(sizes[..j]) % MAX_SEQ == 0 { NoneLost(sizes[..j]); }
  }

  lemma {:induction false} LostGrows(sizes: seq<nat>, j: nat)
    requires j <= |sizes|
    ensures Lost(sizes[..j]) <= Lost(sizes)
    decreases |sizes|
  {
    if j < |sizes| {
      var a := sizes[..|sizes| - 1];
      LostGrows(a, j);
      assert a[..j] == sizes[..j];
    } else {
      assert sizes[..j] == sizes;
    }
  }

  lemma LostOne(sizes: seq<nat>, i: nat, j: nat)
    requires i < j <= |sizes| && sizes[i] >= TOO_LONG
    ensures Lost(sizes[..j]) >= 1
  {
    var a := sizes[..j];
    assert a[..i + 1][..i] == a[..i] && a[..i + 1][i] == sizes[i];
    LostGrows(a, i + 1);
  }

  lemma {:induction false} NoneLost(sizes: seq<nat>)
    requires forall i | 0 <= i < |sizes| :: sizes[i] < TOO_LONG
    ensures Lost(sizes) == 0
    decreases |sizes|
  {
    if sizes != [] { NoneLost(sizes[..|sizes| - 1]); }
  }

  /** Three payloads, of which the second is too long: the second frame carries the number 3. */
  lemma NumberSkipped()
    ensures QueuedAt([1, TOO_LONG, 1]) == [1, 3] && SeqNo(3) == 3 && SeqNo(2) == 2
    ensures !InSequence(QueuedAt([1, TOO_LONG, 1]))
  {
    assert QueuedAt([]) == [];
    hide QueuedAt;
    MoreQueued([], 1);
    MoreQueued([1], TOO_LONG);
    MoreQueued([1, TOO_LONG], 1);
    assert [] + [1] == [1] && [1] + [TOO_LONG] == [1, TOO_LONG] && [1, TOO_LONG] + [1] == [1, TOO_LONG, 1];
    assert QueuedAt([1, TOO_LONG, 1])[1] == 3;
  }

  lemma MoreBytes(log: seq<Entry>, e: Entry)
    requires LogOk(log) && EntryOk(e)
    ensures LogOk(log + [e]) && AllBytes(log + [e]) == AllBytes(log) + Bytes(e)
  {
    assert (log + [e])[..|log|] == log;
  }

  /** The next sequence number. */
  lemma NextSeq(k: nat)
    ensures SeqNo(k + 1) == if SeqNo(k) + 1 > MAX_SEQ then 1 else SeqNo(k) + 1
  {}

  /** A packet with the bytes 0 and 2 and four more. */
  predicate KeepAlive(payload: seq<Byte>) { |payload| >= 6 && payload[0] == 0 && payload[1] == 2 }

  lemma SeedStep(p: nat, n: nat)
    requires n > 0
    ensures SeedBytes(p, n)[0] == p % 255 + 1 && SeedBytes(p, n)[1..] == SeedBytes(p / 19, n - 1)
  {}

  class TcpSession {
    var state: State
    var readBuff: seq<Byte>
    var writeBuf: seq<Byte>
    var seq16: nat
    var bEncrypt: bool
    var seed: seq<Byte>
    var seedLen: nat
    const bCompress: bool := true
    const sendPkt: NetPacket
    const recvPkt: NetPacket

    /** All packets that came, and the payloads handed to `OnReceive`. */
    ghost var came: seq<Msg>
    ghost var delivered: seq<seq<Byte>>
    /** All bytes that the socket gave, and what was known before them. */
    ghost var input: seq<Byte>
    ghost var start: Receiver
    /** All bytes that the socket took, the packets that were sent, and the sizes of all payloads that
        were to be sent while the session was connected. */
    ghost var taken: seq<Byte>
    ghost var log: seq<Entry>
    ghost var sizes: seq<nat>

    ghost function View(): Receiver
      reads this
    {
      Receiver(seed, seedLen, state == Connected, came, delivered)
    }

    ghost predicate KeyOk()
      reads this
    {
      |seed| == SEED_SIZE && (seedLen == 0 || seedLen == SEED_SIZE)
          && (state == Connected && bEncrypt ==> seedLen == SEED_SIZE)
    }

    /** What the socket took and what is still to be written are all frames in the order of sending;
        every payload has used a number. */
    ghost predicate SendOk()
      reads this, sendPkt
    {
      && sendPkt.Valid() && sendPkt != recvPkt && LogOk(log) && taken + writeBuf == AllBytes(log)
      && seq16 == SeqNo(|sizes|) && Nums(log) == QueuedAt(sizes)
    }

    /** What was received, and what the bytes in the read buffer say, is what all bytes that came say. */
    ghost predicate RecvOk()
      reads this
    {
      state != Closed ==> Receive(start, input) == Receive(View(), readBuff)
    }

    constructor ()
      ensures KeyOk() && SendOk() && RecvOk() && state == WaitingSeed && input == [] && log == [] && sizes == []
          && taken == [] && start == NewReceiver() && fresh(sendPkt) && fresh(recvPkt)
    {
      state, readBuff, writeBuf, seq16, bEncrypt := WaitingSeed, [], [], 0, false;
      seed, seedLen := NewReceiver().seed, 0;
      sendPkt := new NetPacket();
      recvPkt := new NetPacket();
      came, delivered, input, taken, log, sizes := [], [], [], [], [], [];
      start := NewReceiver();
    }

    // ---------- sending ----------

    /** `PushData` */
    method PushData(buff: seq<Byte>)
      modifies `writeBuf
      ensures writeBuf == old(writeBuf) + buff
    {
      writeBuf := writeBuf + buff;
    }

    /** `FlushData`, when the socket works: it takes any number of bytes. */
    method FlushData()
      modifies `writeBuf, `taken
      ensures taken + writeBuf == old(taken) + old(writeBuf) && |taken| >= |old(taken)|
    {
      if |writeBuf| == 0 { return; }
      var ret: nat :| ret <= |writeBuf|;
      taken := taken + writeBuf[..ret];
      writeBuf := writeBuf[ret..];
    }

    /** `SendPacket`; a payload that is too long for its size field raises an error after the number
        has been used. */
    method SendPacket(payload: seq<Byte>, flush: bool, sys: bool) returns (r: SendResult)
      requires SendOk() && KeyOk()
      modifies `writeBuf, `taken, `seq16, `log, `sizes, sendPkt
      ensures SendOk()
      ensures r == if state != Connected then NotConnected else if |payload| >= TOO_LONG then Overflow else Queued
      ensures sizes == if r.NotConnected? then old(sizes) else old(sizes) + [|payload|]
      ensures log == if r.Queued? then old(log)
          + [Entry(Sent(Msg(payload, sys), bEncrypt, bCompress), seed, seedLen, |sizes|)] else old(log)
    {
      hide LogOk, EntryOk, Bytes, AllBytes, Nums, QueuedAt, SeqNo;
      if state != Connected { return NotConnected; }
      ghost var e := Entry(Sent(Msg(payload, sys), bEncrypt, bCompress), seed, seedLen, |sizes| + 1);
      MoreNums(log, e);
      MoreQueued(sizes, |payload|);
      NextSeq(|sizes|);
      seq16 := seq16 + 1;
      if seq16 > MAX_SEQ { seq16 := 1; }
      sizes := sizes + [|payload|];
      var ok := sendPkt.AddCmdPacket(payload);
      if !ok { return Overflow; }
      var frame := Pack(sys);
      PushData(frame);
      Push(e, frame);
      if flush { FlushData(); }
      r := Queued;
    }

    /** The packet gets its number, its flags and its encryption. */
    method Pack(sys: bool) returns (frame: seq<Byte>)
      requires sendPkt.Valid() && seq16 == SeqNo(|sizes|) && KeyOk() && state == Connected
          && sendPkt.flags == 16 * PROTOCOL_FLAG
      modifies sendPkt
      ensures sendPkt.Valid()
      ensures var e := Entry(Sent(Msg(old(sendPkt.buffer), sys), bEncrypt, bCompress), seed, seedLen, |sizes|);
        EntryOk(e) && frame == Bytes(e)
    {
      SeqSmall(|sizes|);
      hide SeqNo, With;
      sendPkt.SetSeq(seq16);
      if sys {
        sendPkt.SetSysPacket();
      } else {
        if bEncrypt { sendPkt.Encrypt(seed, seedLen); }
        if bCompress { sendPkt.Compress(); }
      }
      frame := sendPkt.GetBuffer();
    }

    ghost method Push(e: Entry, frame: seq<Byte>)
      requires LogOk(log) && EntryOk(e) && frame == Bytes(e) && taken + writeBuf == AllBytes(log) + frame
      modifies `log
      ensures log == old(log) + [e] && LogOk(log) && taken + writeBuf == AllBytes(log)
    {
      MoreBytes(log, e);
      log := log + [e];
    }

    // ---------- receiving ----------

    /** `SetSeed` */
    method SetSeed(param: nat)
      requires |seed| == SEED_SIZE
      modifies `seed, `seedLen, `bEncrypt
      ensures if param == 0 then !bEncrypt && seed == old(seed) && seedLen == old(seedLen)
              else bEncrypt && seed == SeedBytes(param, SEED_SIZE) && seedLen == SEED_SIZE
    {
      if param == 0 {
        bEncrypt := false;
        return;
      }
      var i := 0;
      var p := param;
      ghost var all := SeedBytes(param, SEED_SIZE);
      while i < SEED_SIZE
        invariant i <= SEED_SIZE == |seed| && seed[..i] == all[..i] && all[i..] == SeedBytes(p, SEED_SIZE - i)
      {
        SeedStep(p, SEED_SIZE - i);
        hide SeedBytes;
        assert all[i] == all[i..][0] && all[i + 1..] == all[i..][1..];
        seed := seed[i := p % 255 + 1];
        p := p / 19;
        i := i + 1;
      }
      seedLen := i;
      bEncrypt := true;
    }

    /** The effect of `ReadData`: the socket gave some bytes. */
    method ReadData(bytes: seq<Byte>)
      requires RecvOk()
      modifies `readBuff, `input
      ensures RecvOk() && input == old(input) + bytes
      ensures readBuff == old(readBuff) + bytes
    {
      hide Receive;
      ReceiveMore(start, input, bytes);
      ReceiveMore(View(), readBuff, bytes);
      readBuff := readBuff + bytes;
      input := input + bytes;
    }

    /** `RecvPacket` */
    method RecvPacket() returns (r: RecvResult)
      modifies `readBuff, `state, recvPkt
      ensures match HeadOf(old(readBuff))
        case NeedMore => r == Nothing && state == old(state) && readBuff == old(readBuff)
        case Bad => r == Nothing && state == Closed && readBuff == old(readBuff)
        case Whole(n) =>
          && readBuff == old(readBuff)[n..] && state == old(state)
          && match PacketIn(old(View()), old(readBuff), n)
             case None => r == Failed
             case Some(m) => r == Got && recvPkt.buffer == m.payload && Has(recvPkt.flags, System) == m.sys
    {
      var ret := recvPkt.BeginRead(readBuff);
      if ret > 0 {
        readBuff := readBuff[ret..];
        if Has(recvPkt.flags, Encrypted) {
          if !Keyed(seed, seedLen, |recvPkt.buffer|) { return Failed; }
          WithoutKeeps(recvPkt.flags, Encrypted);
          recvPkt.Decrypt(seed, seedLen);
        }
        if Has(recvPkt.flags, Compressed) {
          WithoutKeeps(recvPkt.flags, Compressed);
          recvPkt.Uncompress();
        }
        return Got;
      }
      if ret < 0 { state := Closed; }
      return Nothing;
    }

    /** The key of a number is in force, or encryption is off. */
    ghost predicate KeyIs(param: nat, was: seq<Byte>, wasLen: nat)
      reads this
    {
      if param == 0 then !bEncrypt && seed == was && seedLen == wasLen
      else bEncrypt && seed == SeedBytes(param, 16) && seedLen == 16
    }

    /** `HandleSysPacket`: a number that is announced connects the session and sets the key; keep-alive
        packets are answered with the bytes they brought. */
    method HandleSysPacket(payload: seq<Byte>)
      requires SendOk() && KeyOk() && state != Closed
      modifies `seed, `seedLen, `bEncrypt, `state, `writeBuf, `taken, `seq16, `log, `sizes, sendPkt
      ensures SendOk() && KeyOk() && state != Closed
      ensures View() == HandleSys(old(View()), payload)
      ensures Announces(Msg(payload, true)) ==>
        state == Connected && KeyIs(Announced(Msg(payload, true)), old(seed), old(seedLen))
      ensures !Announces(Msg(payload, true)) ==>
        state == old(state) && seed == old(seed) && seedLen == old(seedLen) && bEncrypt == old(bEncrypt)
      ensures if KeepAlive(payload) && old(state) == Connected then
                && |log| == |old(log)| + 1 && log[..|old(log)|] == old(log)
                && log[|old(log)|].s.m == Msg([0, 3] + payload[2..6], true)
              else log == old(log)
    {
      hide LogOk, AllBytes, Nums, QueuedAt, SeqNo;
      var kind := SysType(payload);
      if kind < 0 { return; }
      var param := SysParam(payload);
      if kind == KEEP_ALIVE {
        if param < 0 { return; }
        var r := SendPacket(Be16(ALIVE_ACK) + payload[2..6], true, true);
      } else if kind == SET_SEED {
        if param < 0 { return; }
        SetSeed(param);
        state := Connected;
      }
    }

    /** `GetPacket`: the next packet that is no system packet */
    method GetPacket() returns (r: RecvResult)
      requires SendOk() && KeyOk() && state == Connected
      modifies this, sendPkt, recvPkt
      ensures SendOk() && KeyOk() && start == old(start) && input == old(input) && delivered == old(delivered)
          && state != WaitingSeed
      ensures state == Connected ==> (|readBuff| < |old(readBuff)| || r == Nothing)
      ensures match r
        case Got => state == Connected && Receive(old(View()), old(readBuff))
            == Receive(View().(delivered := delivered + [recvPkt.buffer]), readBuff)
        case Failed => Receive(old(View()), old(readBuff)).end == Crashed
        case Nothing => Stopped(Receive(old(View()), old(readBuff)))
    {
      hide Receive, HeadOf, PacketIn, HandleSys, LogOk, AllBytes, Nums, QueuedAt, SeqNo;
      ghost var r0, b0 := View(), readBuff;
      while true
        invariant SendOk() && KeyOk() && state == Connected
        invariant start == old(start) && input == old(input) && delivered == old(delivered) && |readBuff| <= |b0|
        invariant Receive(r0, b0) == Receive(View(), readBuff)
        decreases |readBuff|
      {
        ghost var v, b := View(), readBuff;
        r := RecvPacket();
        Unfold(v, b);
        if r != Got { return; }
        var sys := Has(recvPkt.flags, System);
        came := came + [Msg(recvPkt.buffer, sys)];
        if !sys { return; }
        StaysConnected(v, recvPkt.buffer);
        HandleSysPacket(recvPkt.buffer);
      }
    }

    /** The packets in the read buffer have been taken, as far as it goes. */
    ghost predicate Stopped(o: Outcome)
      reads this
    {
      if state == Closed then o.end == Dead && o.r.came == came && o.r.delivered == delivered
      else o == Outcome(View(), readBuff, Waiting)
    }

    /** There is no packet to be taken. */
    ghost predicate Quiet()
      reads this
    {
      state != Closed ==> !HeadOf(readBuff).Whole?
    }

    /** `ListenThread`: round after round, the bytes that the socket gives are read and processed; here
        until nothing is left to come and nothing to be taken. */
    method ListenThread(pieces: seq<seq<Byte>>) returns (ok: bool)
      requires SendOk() && KeyOk() && RecvOk() && state != Closed
      modifies this, sendPkt, recvPkt
      ensures SendOk() && KeyOk() && start == old(start) && input <= old(input) + Joined(pieces)
      ensures !ok ==> Receive(start, input).end == Crashed
      ensures ok && state == Closed ==> Receive(start, input).end == Dead
      ensures ok && state != Closed ==> RecvOk() && Quiet() && input == old(input) + Joined(pieces)
    {
      hide Receive, HeadOf, LogOk, AllBytes, Nums, QueuedAt, SeqNo;
      var left := pieces;
      ghost var all := input + Joined(pieces);
      ok := true;
      while left != [] || HasPacket()
        invariant ok && SendOk() && KeyOk() && RecvOk() && start == old(start) && state != Closed
        invariant input + Joined(left) == all
        decreases |left|, if HasPacket() then |readBuff| + 1 else 0
      {
        if left != [] {
          NextPiece(input, left);
          ReadData(left[0]);
          left := left[1..];
        }
        ok := Process();
        if !ok || state == Closed { return; }
      }
      assert input + [] == input;
    }

    /** Is there a whole packet in the read buffer? */
    predicate HasPacket()
      reads this
    {
      HeadOf(readBuff).Whole?
    }

    /** One round of `Process` on the packets; an error while decrypting ends it. */
    method Process() returns (ok: bool)
      requires SendOk() && KeyOk() && RecvOk()
      modifies this, sendPkt, recvPkt
      ensures SendOk() && KeyOk() && start == old(start) && input == old(input)
      ensures ok ==> RecvOk()
      ensures old(state) == Closed ==> ok && state == Closed && came == old(came) && delivered == old(delivered)
      ensures !ok ==> Receive(start, input).end == Crashed
      ensures ok && old(state) == Connected ==> Stopped(Receive(start, input)) && Quiet()
      ensures ok && old(state) != Closed && state == Closed ==> Receive(start, input).end == Dead
      ensures ok && old(state) == WaitingSeed ==> Quiet() || |readBuff| < |old(readBuff)|
    {
      hide Receive, HeadOf;
      if state == Connected {
        ok := TakeAll();
      } else if state == WaitingSeed {
        ok := TakeOne();
      } else {
        ok := true;
      }
    }

    /** `while (GetPacket(...)) OnReceive(...)` */
    method TakeAll() returns (ok: bool)
      requires SendOk() && KeyOk() && RecvOk() && state == Connected
      modifies this, sendPkt, recvPkt
      ensures SendOk() && KeyOk() && start == old(start) && input == old(input)
      ensures if ok then RecvOk() && Stopped(Receive(start, input)) else Receive(start, input).end == Crashed
      ensures ok ==> Quiet()
    {
      hide Receive, HeadOf;
      var r := GetPacket();
      while r == Got
        invariant SendOk() && KeyOk() && start == old(start) && input == old(input)
        invariant match r
          case Got => state == Connected && Receive(start, input)
              == Receive(View().(delivered := delivered + [recvPkt.buffer]), readBuff)
          case Failed => Receive(start, input).end == Crashed
          case Nothing => Stopped(Receive(start, input))
        decreases r == Got, |readBuff|
      {
        delivered := delivered + [recvPkt.buffer];
        r := GetPacket();
      }
      if r == Failed { return false; }
      if state != Closed { SettledAll(start, input); }
      return true;
    }

    /** Before the session is connected, one packet at a time, and only system packets matter. */
    method TakeOne() returns (ok: bool)
      requires SendOk() && KeyOk() && RecvOk() && state == WaitingSeed
      modifies this, sendPkt, recvPkt
      ensures SendOk() && KeyOk() && start == old(start) && input == old(input)
      ensures if ok then RecvOk() else Receive(start, input).end == Crashed
      ensures ok && state == Closed ==> Receive(start, input).end == Dead
      ensures ok ==> Quiet() || |readBuff| < |old(readBuff)|
    {
      hide Receive, HeadOf, PacketIn, HandleSys, LogOk, AllBytes, Nums, QueuedAt, SeqNo;
      ghost var v, b := View(), readBuff;
      var r := RecvPacket();
      Unfold(v, b);
      if r == Failed { return false; }
      if r == Nothing { return true; }
      var sys := Has(recvPkt.flags, System);
      came := came + [Msg(recvPkt.buffer, sys)];
      if sys { HandleSysPacket(recvPkt.buffer); }
      return true;
    }
  }

  lemma SettledAll(r: Receiver, input: seq<Byte>)
    ensures var o := Receive(r, input); o.end.Waiting? ==> Receive(o.r, o.rest) == o && HeadOf(o.rest).NeedMore?
  {
    Settled(r, input);
  }

  /** A session that has read all of a peer's stream, in whatever pieces it came, has all messages. */
  lemma AllCame(s: TcpSession, msgs: seq<Sent>, nums: seq<nat>)
    requires s.state == Connected && s.Stopped(Receive(s.start, s.input))
    requires AllSendable(s.start, msgs) && |nums| == |msgs| && (forall i | 0 <= i < |msgs| :: LegalSize(msgs[i].m))
    requires s.input == Stream(s.start, msgs, nums)
    ensures s.came == s.start.came + MsgsOf(msgs) && s.readBuff == []
    ensures s.start.connected ==> s.delivered == s.start.delivered + DataOf(msgs)
  {
    hide Receive;
    StreamReceived(s.start, msgs, nums);
    AllDelivered(s.start, msgs);
  }

  lemma NextPiece(input: seq<Byte>, left: seq<seq<Byte>>)
    requires left != []
    ensures input + Joined(left) == (input + left[0]) + Joined(left[1..])
  {}

  /** A stream that stops a session stops it with any more bytes, too. */
  lemma StopsForGood(r: Receiver, part: seq<Byte>, whole: seq<Byte>)
    requires part <= whole && !Receive(r, part).end.Waiting?
    ensures Receive(r, whole).end == Receive(r, part).end
  {
    assert whole == part + whole[|part|..];
    ReceiveMore(r, part, whole[|part|..]);
    hide Receive;
  }

  lemma QuietIsSettled(r: Receiver, b: seq<Byte>)
    requires !HeadOf(b).Whole?
    ensures Receive(r, b) == Outcome(r, b, if HeadOf(b).NeedMore? then Waiting else Dead)
  {}

  /** A new session on the stream of a peer, in whatever pieces it comes: it neither fails nor closes; it
      gets connected exactly if a message announces a number, and all data behind the first such message
      is delivered in order. */
  method Session(pieces: seq<seq<Byte>>, ghost msgs: seq<Sent>, ghost nums: seq<nat>) returns (s: TcpSession, ok: bool)
    requires AllSendable(NewReceiver(), msgs) && |nums| == |msgs|
    requires (forall i | 0 <= i < |msgs| :: LegalSize(msgs[i].m)) && Joined(pieces) == Stream(NewReceiver(), msgs, nums)
    ensures ok && s.state == (if SomeAnnounces(msgs) then Connected else WaitingSeed)
    ensures s.delivered == Behind(msgs) && s.came == MsgsOf(msgs) && s.readBuff == []
  {
    hide Receive, HeadOf, AllSendable, LegalSize, Stream;
    s := new TcpSession();
    ghost var all := Joined(pieces);
    assert [] + all == all;
    ok := s.ListenThread(pieces);
    StreamReceived(s.start, msgs, nums);
    DeliveredBehind(s.start, msgs);
    if !Receive(s.start, s.input).end.Waiting? { StopsForGood(s.start, s.input, all); }
    if ok && s.state != Closed { QuietIsSettled(s.View(), s.readBuff); }
  }

  // ---------- what is sent is what a peer can read ----------

  /** The packets were sent with the key that the receiver has. */
  ghost predicate InStep(r: Receiver, log: seq<Entry>)
    decreases |log|
  {
    log == [] || (EntryOk(log[0]) && (log[0].s.encrypt && !log[0].s.m.sys
        ==> log[0].seed == r.seed && log[0].len == r.len)
                  && InStep(Accept(r, log[0].s.m), log[1..]))
  }

  function SentOf(log: seq<Entry>): (r: seq<Sent>)
    ensures |r| == |log|
  {
    if log == [] then [] else [log[0].s] + SentOf(log[1..])
  }

  function BytesFrom(log: seq<Entry>): seq<Byte>
    requires LogOk(log)
  {
    if log == [] then [] else Bytes(log[0]) + BytesFrom(log[1..])
  }

  /** The bytes in the order of sending. */
  lemma {:induction false} BytesFromFirst(log: seq<Entry>)
    requires LogOk(log)
    ensures AllBytes(log) == BytesFrom(log)
    decreases |log|
  {
    hide Bytes, EntryOk;
    if |log| == 1 {
      assert log == [] + [log[0]];
      assert AllBytes(log[..0]) == [] && BytesFrom(log[1..]) == [];
    } else if |log| > 1 {
      var a, z := log[..|log| - 1], log[1..];
      BytesFromFirst(a);
      BytesFromFirst(z);
      assert a[1..] == z[..|z| - 1] && z[|z| - 1] == log[|log| - 1] && a[0] == log[0];
      BytesFromFirst(z[..|z| - 1]);
      assert AllBytes(log) == Bytes(log[0]) + BytesFrom(a[1..]) + Bytes(log[|log| - 1]);
      assert BytesFrom(log) == Bytes(log[0]) + (AllBytes(z[..|z| - 1]) + Bytes(log[|log| - 1]));
    }
  }

  lemma {:induction false} LogFromFirst(r: Receiver, log: seq<Entry>)
    requires LogOk(log) && InStep(r, log)
    ensures AllSendable(r, SentOf(log)) && BytesFrom(log) == Stream(r, SentOf(log), Nums(log))
    decreases |log|
  {
    if log != [] {
      LogFromFirst(Accept(r, log[0].s.m), log[1..]);
      assert SentOf(log)[1..] == SentOf(log[1..]) && Nums(log)[1..] == Nums(log[1..]);
      hide Accept, FrameOf, SeqNo, Crypt, Nums;
    }
  }

  /** What the socket took and what is still to be written is, whatever numbers were lost, the stream
      that a receiver with the same key reads back. */
  lemma LogIsStream(s: TcpSession, r: Receiver)
    requires s.SendOk() && InStep(r, s.log)
    ensures AllSendable(r, SentOf(s.log)) && s.taken + s.writeBuf == Stream(r, SentOf(s.log), Nums(s.log))
  {
    hide Stream, Nums;
    LogFromFirst(r, s.log);
    BytesFromFirst(s.log);
  }

  /** The numbers in the frames that a session sends: they increase, and they are in sequence exactly
      when payloads that are too long come in full rounds of 65000 before the others. */
  lemma SessionNumbers(s: TcpSession)
    requires s.SendOk()
    ensures forall i, j | 0 <= i < j < |s.log| :: s.log[i].num < s.log[j].num
    ensures (forall k | 0 <= k < |s.log| :: SeqNo(s.log[k].num) == SeqNo(k + 1)) <==> FullRounds(s.sizes)
    ensures Lost(s.sizes) < MAX_SEQ ==> (FullRounds(s.sizes) <==> LongOnesLast(s.sizes))
  {
    hide SeqNo, FullRounds, LongOnesLast, QueuedAt, AllBytes, LogOk;
    NumbersIncrease(s.sizes);
    InSequenceExactly(s.sizes);
    if Lost(s.sizes) < MAX_SEQ { InSequenceUnlessLost(s.sizes); }
    assert InSequence(Nums(s.log)) <==> forall k | 0 <= k < |s.log| :: SeqNo(s.log[k].num) == SeqNo(k + 1);
  }
}
