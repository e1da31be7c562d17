/** Packets on the wire (`NetPacket.cs`): a header of five bytes, and a payload that may be
    encrypted with a repeated key. */
module NetPackets {

  type Byte = b: int | 0 <= b < 256 witness 0

  const HEAD_SIZE: nat := 5
  const PROTOCOL_FLAG: nat := 5
  const MAX_PAYLOAD: nat := 16384
  const SEED_SIZE: nat := 16

  // ---------- bits ----------

  /** The exclusive or of the low `k` bits. */
  function Xor(a: nat, b: nat, k: nat): nat
    decreases k
  {
    if k == 0 then 0 else 2 * Xor(a / 2, b / 2, k - 1) + (a % 2 + b % 2) % 2
  }

  function Pow2(k: nat): nat { if k == 0 then 1 else 2 * Pow2(k - 1) }

  lemma {:induction false} XorTwice(a: nat, b: nat, k: nat)
    requires a < Pow2(k)
    ensures Xor(a, b, k) < Pow2(k) && Xor(Xor(a, b, k), b, k) == a
    decreases k
  {
    if k > 0 {
      XorTwice(a / 2, b / 2, k - 1);
      XorDigits(a, b, k);
      XorDigits(Xor(a, b, k), b, k);
      TwoBits(a % 2, b % 2);
      hide Xor;
    }
  }

  /** The lowest bit, and the others. */
  lemma XorDigits(a: nat, b: nat, k: nat)
    requires k > 0
    ensures Xor(a, b, k) == 2 * Xor(a / 2, b / 2, k - 1) + (a % 2 + b % 2) % 2
    ensures Xor(a, b, k) / 2 == Xor(a / 2, b / 2, k - 1) && Xor(a, b, k) % 2 == (a % 2 + b % 2) % 2
  {}

  lemma TwoBits(x: nat, y: nat)
    requires x < 2 && y < 2
    ensures ((x + y) % 2 + y) % 2 == x
  {}

  lemma {:induction false} XorBound(a: nat, b: nat, k: nat)
    ensures Xor(a, b, k) < Pow2(k)
    decreases k
  {
    if k > 0 { XorBound(a / 2, b / 2, k - 1); }
  }

  function XorByte(a: Byte, b: Byte): Byte {
    XorBound(a, b, 8);
    assert Pow2(8) == 256 by { assert Pow2(4) == 16; }
    Xor(a, b, 8)
  }

  lemma XorByteTwice(a: Byte, b: Byte)
    ensures XorByte(XorByte(a, b), b) == a
  {
    assert Pow2(8) == 256 by { assert Pow2(4) == 16; }
    XorTwice(a, b, 8);
  }

  datatype Flag = Encrypted | Compressed | System

  function Weight(f: Flag): nat { match f case Encrypted => 1 case Compressed => 2 case System => 4 }

  predicate Has(flags: Byte, f: Flag) { (flags / Weight(f)) % 2 == 1 }

  function With(flags: Byte, f: Flag): Byte { if Has(flags, f) then flags else (flags + Weight(f)) % 256 }

  function Without(flags: Byte, f: Flag): Byte { if Has(flags, f) then flags - Weight(f) else flags }

  /** The other flags stay. */
  lemma WithoutKeeps(flags: Byte, f: Flag)
    ensures !Has(Without(flags, f), f) && forall g: Flag :: g != f ==> Has(Without(flags, f), g) == Has(flags, g)
  {
    var w := Without(flags, f);
    LowBits(flags);
    LowBits(w);
    var h, r := flags / 8, flags % 8;
    var x := if Has(flags, f) then r - Weight(f) else r;
    assert w == (if Has(flags, f) then flags - Weight(f) else flags) && flags == 8 * h + r;
    hide Has, Without;
    assert 0 <= x < 8;
    Mod8(h, x);
  }

  lemma Mod8(h: int, x: int)
    requires 0 <= x < 8
    ensures (8 * h + x) % 8 == x
  {}

  lemma LowBits(flags: Byte)
    ensures var r := flags % 8;
      && Has(flags, Encrypted) == (r == 1 || r == 3 || r == 5 || r == 7)
      && Has(flags, Compressed) == (r == 2 || r == 3 || r == 6 || r == 7)
      && Has(flags, System) == (r >= 4)
  {
    var h, r := flags / 8, flags % 8;
    assert flags == 8 * h + r && flags / 2 == 4 * h + r / 2 && flags / 4 == 2 * h + r / 4;
  }

  // ---------- the key ----------

  /** Which byte of the key meets byte `i`: the index restarts when it comes to `len`. */
  function KeyIndex(len: nat, i: nat): (k: nat)
    ensures len > 0 ==> k < len
  {
    if len == 0 || i < len then i else KeyIndex(len, i - len)
  }

  lemma {:induction false} NextKey(len: nat, i: nat)
    requires i > 0
    ensures KeyIndex(len, i) == if KeyIndex(len, i - 1) + 1 == len then 0 else KeyIndex(len, i - 1) + 1
    decreases i
  {
    if len > 0 && i > len { NextKey(len, i - len); }
  }

  /** All key bytes for `n` bytes exist. */
  predicate Keyed(seed: seq<Byte>, len: nat, n: nat) { (0 < len <= |seed|) || (len == 0 && n <= |seed|) }

  function Crypt(data: seq<Byte>, seed: seq<Byte>, len: nat): (r: seq<Byte>)
    requires Keyed(seed, len, |data|)
    ensures |r| == |data|
  {
    seq(|data|, i requires 0 <= i < |data| => XorByte(data[i], seed[KeyIndex(len, i)]))
  }

  /** Encrypting and decrypting undo each other. */
  lemma CryptTwice(data: seq<Byte>, seed: seq<Byte>, len: nat)
    requires Keyed(seed, len, |data|)
    ensures Crypt(Crypt(data, seed, len), seed, len) == data
  {
    var c := Crypt(data, seed, len);
    forall i | 0 <= i < |data|
      ensures Crypt(c, seed, len)[i] == data[i]
    {
      XorByteTwice(data[i], seed[KeyIndex(len, i)]);
    }
    hide XorByte;
  }

  // ---------- frames ----------

  function Be16(n: nat): seq<Byte>
    requires n < 65536
  {
    [n / 256, n % 256]
  }

  function Word(high: Byte, low: Byte): nat {
    var h: int := high;
    256 * h + low
  }

  function FrameOf(flags: Byte, seqno: nat, payload: seq<Byte>): (r: seq<Byte>)
    requires seqno < 65536 && |payload| < 65536
  {
    [flags] + Be16(seqno) + Be16(|payload|) + payload
  }

  /** What the head of the input tells: more is needed, or it is no packet, or a packet of so many bytes. */
  datatype Head = NeedMore | Bad | Whole(n: nat)

  function HeadOf(input: seq<Byte>): (r: Head)
    ensures r.Whole? ==> HEAD_SIZE < r.n <= |input|
  {
    if |input| < HEAD_SIZE then NeedMore
    else if input[0] / 16 != PROTOCOL_FLAG then Bad
    else
      var size := Word(input[3], input[4]);
      if size == 0 || size > MAX_PAYLOAD then Bad
      else if |input| < size + HEAD_SIZE then NeedMore
      else Whole(size + HEAD_SIZE)
  }

  /** A header that was recognized stays as it is when more arrives. */
  lemma HeadStays(a: seq<Byte>, b: seq<Byte>)
    requires !HeadOf(a).NeedMore?
    ensures HeadOf(a + b) == HeadOf(a)
  {}

  /** A frame is recognized exactly when its payload has a legal size. */
  lemma HeadOfFrame(flags: Byte, seqno: nat, payload: seq<Byte>, more: seq<Byte>)
    requires seqno < 65536 && |payload| < 65536 && flags / 16 == PROTOCOL_FLAG
    ensures var f := FrameOf(flags, seqno, payload);
      && |f| == HEAD_SIZE + |payload| && (f + more)[0] == flags
      && HeadOf(f + more) == (if 1 <= |payload| <= MAX_PAYLOAD then Whole(|f|) else Bad)
      && (f + more)[HEAD_SIZE..|f|] == payload && (f + more)[|f|..] == more
  {
    var f := FrameOf(flags, seqno, payload);
    assert f[3] == |payload| / 256 && f[4] == |payload| % 256;
    assert f[HEAD_SIZE..] == payload;
  }

  class NetPacket {
    var flags: Byte
    var dataSize: nat
    var seqno: nat
    var buffer: seq<Byte>

    ghost predicate Valid()
      reads this
    {
      dataSize == |buffer| < 65536 && seqno < 65536
    }

    constructor ()
      ensures Valid()
    {
      flags, dataSize, seqno, buffer := 0, 0, 0, [];
    }

    /** `GetBuffer` */
    method GetBuffer() returns (r: seq<Byte>)
      requires Valid()
      ensures r == FrameOf(flags, seqno, buffer)
    {
      r := [flags];
      r := r + Be16(seqno);
      r := r + Be16(dataSize);
      r := r + buffer;
    }

    /** `AddCmdPacket`; the size is an unsigned 16-bit number, or an overflow error is raised. */
    method AddCmdPacket(data: seq<Byte>) returns (ok: bool)
      requires Valid()
      modifies `flags, `dataSize, `buffer
      ensures Valid() && ok == (|data| < 65536)
      ensures ok ==> buffer == data && flags == 16 * PROTOCOL_FLAG
      ensures !ok ==> buffer == old(buffer) && flags == old(flags)
    {
      if |data| >= 65536 { return false; }
      flags, dataSize, buffer := 16 * PROTOCOL_FLAG, |data|, data;
      return true;
    }

    /** `SetSeq` */
    method SetSeq(seq16: nat)
      requires Valid() && seq16 < 65536
      modifies `seqno
      ensures Valid() && seqno == seq16
    {
      seqno := seq16;
    }

    /** `SetSysPacket` */
    method SetSysPacket()
      modifies `flags
      ensures flags == With(old(flags), System)
    {
      flags := With(flags, System);
    }

    /** `Compress`, which only marks the packet */
    method Compress()
      modifies `flags
      ensures flags == With(old(flags), Compressed)
    {
      flags := With(flags, Compressed);
    }

    /** `Uncompress`, which only takes the mark away */
    method Uncompress()
      modifies `flags
      ensures flags == Without(old(flags), Compressed)
    {
      flags := Without(flags, Compressed);
    }

    /** The loop of `Encrypt` and of `Decrypt`. */
    method XorBuffer(seed: seq<Byte>, len: nat)
      requires Valid() && Keyed(seed, len, |buffer|)
      modifies `buffer
      ensures Valid() && buffer == Crypt(old(buffer), seed, len)
    {
      hide XorByte;
      ghost var data := buffer;
      var i, k := 0, 0;
      while i < dataSize
        invariant i <= dataSize == |data| == |buffer|
        invariant k == if i == 0 then 0 else KeyIndex(len, i - 1) + 1
        invariant forall m | 0 <= m < i :: buffer[m] == Crypt(data, seed, len)[m]
        invariant forall m | i <= m < dataSize :: buffer[m] == data[m]
      {
        if i > 0 { NextKey(len, i); }
        if k == len { k := 0; }
        buffer := buffer[i := XorByte(buffer[i], seed[k])];
        i, k := i + 1, k + 1;
      }
    }

    /** `Encrypt` */
    method Encrypt(seed: seq<Byte>, len: nat)
      requires Valid() && Keyed(seed, len, |buffer|)
      modifies `buffer, `flags
      ensures Valid() && buffer == Crypt(old(buffer), seed, len) && flags == With(old(flags), Encrypted)
    {
      XorBuffer(seed, len);
      flags := With(flags, Encrypted);
    }

    /** `Decrypt` */
    method Decrypt(seed: seq<Byte>, len: nat)
      requires Valid() && Keyed(seed, len, |buffer|)
      modifies `buffer, `flags
      ensures Valid() && buffer == Crypt(old(buffer), seed, len) && flags == Without(old(flags), Encrypted)
    {
      XorBuffer(seed, len);
      flags := Without(flags, Encrypted);
    }

    /** `BeginRead`: 0 when more input is needed, -1 when it is no packet, or the size of the packet */
    method BeginRead(input: seq<Byte>) returns (r: int)
      modifies this
      ensures match HeadOf(input)
        case NeedMore => r == 0
        case Bad => r == -1
        case Whole(n) => r == n && Valid() && flags == input[0] && buffer == input[HEAD_SIZE..n]
      ensures r <= 0 ==> buffer == old(buffer)
    {
      if |input| < HEAD_SIZE { return 0; }
      flags := input[0];
      seqno := Word(input[1], input[2]);
      dataSize := Word(input[3], input[4]);
      if flags / 16 != PROTOCOL_FLAG { return -1; }
      if dataSize == 0 || dataSize > MAX_PAYLOAD { return -1; }
      var total := dataSize + HEAD_SIZE;
      if |input| < total { return 0; }
      buffer := input[HEAD_SIZE..total];
      return total;
    }
  }
}
