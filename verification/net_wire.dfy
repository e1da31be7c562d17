/** The wire format in numbers, apart from the functions that read and write it: header bytes, flag bits,
    the key made from a number, and the exclusive or, bit by bit. */
module NetWire {
  import opened NetPackets
  import opened NetSession

  // ---------- bits ----------

  /** Bit `i` of a number. */
  predicate Bit(n: nat, i: nat) { if i == 0 then n % 2 == 1 else Bit(n / 2, i - 1) }

  lemma {:induction false} XorBits(a: nat, b: nat, k: nat, i: nat)
    requires i < k
    ensures Bit(Xor(a, b, k), i) <==> Bit(a, i) != Bit(b, i)
    decreases k
  {
    XorDigits(a, b, k);
    if i > 0 {
      hide Xor;
      XorBits(a / 2, b / 2, k - 1, i - 1);
    } else {
      BitSum(a % 2, b % 2);
    }
  }

  lemma BitSum(x: nat, y: nat)
    requires x < 2 && y < 2
    ensures (x + y) % 2 == 1 <==> x != y
  {}

  /** A number below a power of two is known by its bits. */
  lemma {:induction false} SameBits(a: nat, b: nat, k: nat)
    requires a < Pow2(k) && b < Pow2(k) && forall i: nat | i < k :: Bit(a, i) == Bit(b, i)
    ensures a == b
    decreases k
  {
    if k > 0 {
      assert Bit(a, 0) == Bit(b, 0);
      forall i: nat | i < k - 1 ensures Bit(a / 2, i) == Bit(b / 2, i) { assert Bit(a, i + 1) == Bit(b, i + 1); }
      SameBits(a / 2, b / 2, k - 1);
    }
  }

  /** Byte `i` of an encrypted payload: the bits that differ between the data and key byte `i` modulo the
      length of the key. */
  lemma CryptBits(data: seq<Byte>, seed: seq<Byte>, len: nat, i: nat, bit: nat)
    requires 0 < len <= |seed| && i < |data| && bit < 8
    ensures Bit(Crypt(data, seed, len)[i], bit) <==> Bit(data[i], bit) != Bit(seed[i % len], bit)
  {
    KeyModulo(len, i);
    XorBits(data[i], seed[i % len], 8, bit);
    hide Xor, KeyIndex, Bit;
  }

  lemma {:induction false} KeyModulo(len: nat, i: nat)
    requires len > 0
    ensures KeyIndex(len, i) == i % len
    decreases i
  {
    if i >= len {
      KeyModulo(len, i - len);
      ModuloBack(len, i);
      hide KeyIndex;
    }
  }

  lemma ModuloBack(len: nat, i: nat)
    requires len > 0 && i >= len
    ensures (i - len) % len == i % len
  {
    var q, r := (i - len) / len, (i - len) % len;
    assert i - len == len * q + r;
    assert i == len * (q + 1) + r;
    Division(len, q + 1, r);
  }

  lemma Distribute(m: nat, a: nat, b: nat)
    ensures m * (a + b) == m * a + m * b
  {}

  lemma MulOrder(m: nat, a: nat, b: nat)
    ensures a < b ==> m * a + m <= m * b
  {
    if a < b {
      var d := b - a - 1;
      assert b == a + 1 + d;
      Distribute(m, a + 1, d);
      Distribute(m, a, 1);
    }
  }

  lemma Division(m: nat, q: nat, r: nat)
    requires r < m
    ensures (m * q + r) / m == q && (m * q + r) % m == r
  {
    var n := m * q + r;
    assert n == m * (n / m) + n % m;
    MulOrder(m, q, n / m);
    MulOrder(m, n / m, q);
  }

  // ---------- the key ----------

  function Pow19(i: nat): (p: nat)
    ensures p > 0
  {
    if i == 0 then 1 else 19 * Pow19(i - 1)
  }

  lemma Quotient(p: nat, d: nat)
    requires d > 0
    ensures p / 19 / d == p / (19 * d)
  {
    var a, q := p / 19, p / 19 / d;
    assert p == 19 * a + p % 19 && a == d * q + a % d;
    assert p == 19 * d * q + (19 * (a % d) + p % 19);
    Division(19 * d, q, 19 * (a % d) + p % 19);
  }

  /** Byte `i` of the key that a number announces. */
  lemma {:induction false} SeedByte(param: nat, n: nat, i: nat)
    requires i < n
    ensures SeedBytes(param, n)[i] == param / Pow19(i) % 255 + 1
    decreases n
  {
    if i == 0 {
      assert param / 1 == param;
    } else {
      SeedByte(param / 19, n - 1, i - 1);
      Quotient(param, Pow19(i - 1));
      hide SeedBytes;
      assert SeedBytes(param, n)[i] == SeedBytes(param / 19, n - 1)[i - 1] by { SeedTail(param, n, i); }
    }
  }

  lemma SeedTail(param: nat, n: nat, i: nat)
    requires 0 < i < n
    ensures SeedBytes(param, n)[i] == SeedBytes(param / 19, n - 1)[i - 1]
  {}

  // ---------- headers ----------

  /** A frame: flags, number and size, the high byte first, and the payload. */
  lemma FrameBytes(flags: Byte, seqno: nat, payload: seq<Byte>)
    requires seqno < 65536 && |payload| < 65536
    ensures var f := FrameOf(flags, seqno, payload);
      && |f| == 5 + |payload| && f[0] == flags && f[5..] == payload
      && 256 * Number(f[1]) + Number(f[2]) == seqno && 256 * Number(f[3]) + Number(f[4]) == |payload|
  {
    var f := FrameOf(flags, seqno, payload);
    assert f[1] == seqno / 256 && f[2] == seqno % 256 && f[3] == |payload| / 256 && f[4] == |payload| % 256;
    assert f[5..] == payload;
  }

  function Number(b: Byte): nat { b }

  /** The first byte: five in the high half, and a bit each for encryption, compression and the system. */
  lemma FlagNumbers(m: Msg, encrypt: bool, compress: bool)
    ensures FlagsOf(m, encrypt, compress) ==
      80 + if m.sys then 4 else (if encrypt then 1 else 0) + (if compress then 2 else 0)
  {
    assert With(80, System) == 84 && With(80, Encrypted) == 81;
    assert With(80, Compressed) == 82 && With(81, Compressed) == 83;
    hide With;
  }

  /** What the flags of a header mean. */
  lemma FlagsMean(flags: Byte)
    ensures Has(flags, Encrypted) == Bit(flags, 0) && Has(flags, Compressed) == Bit(flags, 1)
    ensures Has(flags, System) == Bit(flags, 2)
  {
    assert flags / 1 == flags && flags / 2 / 2 == flags / 4;
    assert Bit(flags, 1) == Bit(flags / 2, 0) && Bit(flags, 2) == Bit(flags / 2, 1) == Bit(flags / 2 / 2, 0);
  }

  /** What the first bytes of the input tell. */
  lemma HeadBytes(input: seq<Byte>)
    ensures |input| < 5 ==> HeadOf(input) == NeedMore
    ensures |input| >= 5 ==>
      var size := 256 * Number(input[3]) + Number(input[4]);
      HeadOf(input) ==
        if input[0] < 80 || input[0] >= 96 || size == 0 || size > 16384 then Bad
        else if |input| < 5 + size then NeedMore else Whole(5 + size)
  {}
}
