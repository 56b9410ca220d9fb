/** Bytes as bit sequences, least significant bit first: the order in which the
    bdBuffer streams its bits.  Every other codec module reasons about
    `seq<bool>` and meets the machine operations `<<`, `>>`, `|` and `&` only here. */
module Bits {

  /** `x << k` on a byte: k single shifts. */
  function Shl(x: bv8, k: nat): bv8 {
    if k == 0 then x else Shl(x, k - 1) << 1
  }

  /** `x >> k` on a byte: k single shifts. */
  function Shr(x: bv8, k: nat): bv8 {
    if k == 0 then x else Shr(x, k - 1) >> 1
  }

  /** `x & (0xFF >> (8 - n))`. */
  function KeepLow(x: bv8, n: nat): bv8
    requires n <= 8
  {
    x & Shr(0xFF, 8 - n)
  }

  /** Bit i of a byte, counting from the least significant. */
  predicate Bit(b: bv8, i: nat)
    requires i < 8
  {
    match i
    case 0 => b & 1 != 0
    case 1 => b & 2 != 0
    case 2 => b & 4 != 0
    case 3 => b & 8 != 0
    case 4 => b & 16 != 0
    case 5 => b & 32 != 0
    case 6 => b & 64 != 0
    case _ => b & 128 != 0
  }

  function LowBits(b: bv8, n: nat): (r: seq<bool>)
    requires n <= 8
    ensures |r| == n
  {
    if n == 0 then [] else LowBits(b, n - 1) + [Bit(b, n - 1)]
  }

  /** The eight bits of a byte, least significant first. */
  function ByteBits(b: bv8): (r: seq<bool>)
    ensures |r| == 8
  {
    LowBits(b, 8)
  }

  lemma {:induction false} LowBitsAt(b: bv8, n: nat, i: nat)
    requires i < n <= 8
    ensures LowBits(b, n)[i] == Bit(b, i)
  {
    if i < n - 1 {
      LowBitsAt(b, n - 1, i);
    }
  }

  lemma ByteBitsAt(b: bv8)
    ensures forall i {:trigger ByteBits(b)[i]} {:trigger Bit(b, i)} :: 0 <= i < 8 ==> ByteBits(b)[i] == Bit(b, i)
  {
    forall i | 0 <= i < 8
      ensures ByteBits(b)[i] == Bit(b, i)
    {
      LowBitsAt(b, 8, i);
    }
  }

  function BitsOf(bytes: seq<bv8>): (r: seq<bool>)
    ensures |r| == 8 * |bytes|
  {
    if bytes == [] then [] else ByteBits(bytes[0]) + BitsOf(bytes[1..])
  }

  function Zeros(n: nat): (r: seq<bool>)
    ensures |r| == n && forall i :: 0 <= i < n ==> !r[i]
  {
    seq(n, _ => false)
  }

  /** Up to eight bits, filled up to a byte with zero bits at the top. */
  function Pad8(s: seq<bool>): (r: seq<bool>)
    requires |s| <= 8
    ensures |r| == 8
  {
    s + Zeros(8 - |s|)
  }

  // ---- sequences of bytes ----

  lemma {:induction false} BitsOfAppend(a: seq<bv8>, b: seq<bv8>)
    ensures BitsOf(a + b) == BitsOf(a) + BitsOf(b)
  {
    if a == [] {
      assert a + b == b;
    } else {
      assert (a + b)[0] == a[0] && (a + b)[1..] == a[1..] + b;
      BitsOfAppend(a[1..], b);
    }
  }

  lemma BitsOfOne(b: bv8)
    ensures BitsOf([b]) == ByteBits(b)
  {
    assert BitsOf([b]) == ByteBits(b) + BitsOf([]);
  }

  lemma BitsOfSnoc(a: seq<bv8>, b: bv8)
    ensures BitsOf(a + [b]) == BitsOf(a) + ByteBits(b)
  {
    BitsOfAppend(a, [b]);
    BitsOfOne(b);
  }

  lemma BitsOfDrop(a: seq<bv8>, n: nat)
    requires n <= |a|
    ensures BitsOf(a[n..]) == BitsOf(a)[8 * n..]
  {
    var front, back := a[..n], a[n..];
    BitsOfAppend(front, back);
    assert front + back == a;
  }

  lemma BitsOfTake(a: seq<bv8>, n: nat)
    requires n <= |a|
    ensures BitsOf(a[..n]) == BitsOf(a)[..8 * n]
  {
    var front, back := a[..n], a[n..];
    BitsOfAppend(front, back);
    assert front + back == a;
  }

  lemma ByteBitsInjective(a: bv8, b: bv8)
    requires ByteBits(a) == ByteBits(b)
    ensures a == b
  {
    ByteBitsAt(a);
    ByteBitsAt(b);
    forall i | 0 <= i < 8
      ensures Bit(a, i) == Bit(b, i)
    {
      assert ByteBits(a)[i] == ByteBits(b)[i];
    }
    assert Bit(a, 0) == Bit(b, 0) && Bit(a, 1) == Bit(b, 1) && Bit(a, 2) == Bit(b, 2) && Bit(a, 3) == Bit(b, 3);
    assert Bit(a, 4) == Bit(b, 4) && Bit(a, 5) == Bit(b, 5) && Bit(a, 6) == Bit(b, 6) && Bit(a, 7) == Bit(b, 7);
  }

  /** A byte sequence is determined by its bits. */
  lemma {:induction false} BitsOfInjective(a: seq<bv8>, b: seq<bv8>)
    requires BitsOf(a) == BitsOf(b)
    ensures a == b
  {
    if a != [] {
      assert |BitsOf(a)| == 8 * |a| && |BitsOf(b)| == 8 * |b|;
      assert BitsOf(a)[..8] == ByteBits(a[0]) && BitsOf(b)[..8] == ByteBits(b[0]);
      assert BitsOf(a)[8..] == BitsOf(a[1..]) && BitsOf(b)[8..] == BitsOf(b[1..]);
      ByteBitsInjective(a[0], b[0]);
      BitsOfInjective(a[1..], b[1..]);
      assert a == [a[0]] + a[1..] && b == [b[0]] + b[1..];
    }
  }

  // ---- the machine operations, bit by bit ----

  lemma SingleShiftBit(x: bv8, i: nat)
    requires i < 8
    ensures Bit(x << 1, i) == (i >= 1 && Bit(x, i - 1))
    ensures Bit(x >> 1, i) == (i + 1 < 8 && Bit(x, i + 1))
  {
    match i
    case 0 =>
    case 1 =>
    case 2 =>
    case 3 =>
    case 4 =>
    case 5 =>
    case 6 =>
    case 7 =>
  }

  lemma {:induction false} ShiftLeftBit(x: bv8, k: nat, i: nat)
    requires k < 8 && i < 8
    ensures Bit(Shl(x, k), i) == (i >= k && Bit(x, i - k))
  {
    if k > 0 {
      SingleShiftBit(Shl(x, k - 1), i);
      if i > 0 {
        ShiftLeftBit(x, k - 1, i - 1);
      }
    }
  }

  lemma {:induction false} ShiftRightBit(x: bv8, k: nat, i: nat)
    requires k < 8 && i < 8
    ensures Bit(Shr(x, k), i) == (i + k < 8 && Bit(x, i + k))
  {
    if k > 0 {
      SingleShiftBit(Shr(x, k - 1), i);
      if i + 1 < 8 {
        ShiftRightBit(x, k - 1, i + 1);
      }
    }
  }

  lemma OrBit(x: bv8, y: bv8, i: nat)
    requires i < 8
    ensures Bit(x | y, i) == (Bit(x, i) || Bit(y, i))
  {
    match i
    case 0 =>
    case 1 =>
    case 2 =>
    case 3 =>
    case 4 =>
    case 5 =>
    case 6 =>
    case 7 =>
  }

  lemma AndBit(x: bv8, y: bv8, i: nat)
    requires i < 8
    ensures Bit(x & y, i) == (Bit(x, i) && Bit(y, i))
  {
    match i
    case 0 =>
    case 1 =>
    case 2 =>
    case 3 =>
    case 4 =>
    case 5 =>
    case 6 =>
    case 7 =>
  }

  lemma ZeroBits()
    ensures ByteBits(0) == Zeros(8)
  {
    ByteBitsAt(0);
    forall i | 0 <= i < 8
      ensures !Bit(0, i)
    {
    }
  }

  // ---- the machine operations on whole bytes ----

  lemma ShiftLeftBits(x: bv8, k: nat)
    requires k < 8
    ensures ByteBits(Shl(x, k)) == Zeros(k) + ByteBits(x)[..8 - k]
  {
    var y := Shl(x, k);
    ByteBitsAt(x);
    ByteBitsAt(y);
    forall i | 0 <= i < 8
      ensures ByteBits(y)[i] == (Zeros(k) + ByteBits(x)[..8 - k])[i]
    {
      ShiftLeftBit(x, k, i);
    }
  }

  lemma ShiftRightBits(x: bv8, k: nat)
    requires k < 8
    ensures ByteBits(Shr(x, k)) == ByteBits(x)[k..] + Zeros(k)
  {
    var y := Shr(x, k);
    ByteBitsAt(x);
    ByteBitsAt(y);
    forall i | 0 <= i < 8
      ensures ByteBits(y)[i] == (ByteBits(x)[k..] + Zeros(k))[i]
    {
      ShiftRightBit(x, k, i);
    }
  }

  lemma AndBits(x: bv8, y: bv8)
    ensures forall i :: 0 <= i < 8 ==> ByteBits(x & y)[i] == (ByteBits(x)[i] && ByteBits(y)[i])
  {
    ByteBitsAt(x);
    ByteBitsAt(y);
    ByteBitsAt(x & y);
    forall i | 0 <= i < 8
      ensures ByteBits(x & y)[i] == (ByteBits(x)[i] && ByteBits(y)[i])
    {
      AndBit(x, y, i);
    }
  }

  lemma OrBits(x: bv8, y: bv8)
    ensures forall i :: 0 <= i < 8 ==> ByteBits(x | y)[i] == (ByteBits(x)[i] || ByteBits(y)[i])
  {
    ByteBitsAt(x);
    ByteBitsAt(y);
    ByteBitsAt(x | y);
    forall i | 0 <= i < 8
      ensures ByteBits(x | y)[i] == (ByteBits(x)[i] || ByteBits(y)[i])
    {
      OrBit(x, y, i);
    }
  }

  lemma OnesBits()
    ensures forall i :: 0 <= i < 8 ==> ByteBits(0xFF)[i]
  {
    ByteBitsAt(0xFF);
    forall i | 0 <= i < 8
      ensures ByteBits(0xFF)[i]
    {
    }
  }

  // The three byte lemmas below follow from the ones above by sequence reasoning
  // alone, which the solver does best with no bit-vector term in sight.

  lemma MaskedBits(x: seq<bool>, mask: seq<bool>, r: seq<bool>, n: nat)
    requires 0 < n <= 8 && |x| == |mask| == |r| == 8
    requires forall i :: 0 <= i < 8 ==> mask[i] == (i < n)
    requires forall i :: 0 <= i < 8 ==> r[i] == (x[i] && mask[i])
    ensures r == Pad8(x[..n])
  {
  }

  lemma JoinedBits(last: seq<bool>, shifted: seq<bool>, r: seq<bool>, p: seq<bool>, q: seq<bool>)
    requires |p| < 8 && |q| <= 8 && |last| == |shifted| == |r| == 8
    requires last == Pad8(p)
    requires shifted == Zeros(|p|) + Pad8(q)[..8 - |p|]
    requires forall i :: 0 <= i < 8 ==> r[i] == (last[i] || shifted[i])
    ensures r == if |p + q| <= 8 then Pad8(p + q) else (p + q)[..8]
  {
  }

  lemma SplicedBits(low: seq<bool>, high: seq<bool>, r: seq<bool>, a: seq<bool>, b: seq<bool>, k: nat)
    requires 0 < k < 8 && |a| == |b| == |r| == 8
    requires low == a[k..] + Zeros(k) && high == Zeros(8 - k) + b[..k]
    requires forall i :: 0 <= i < 8 ==> r[i] == (low[i] || high[i])
    ensures r == a[k..] + b[..k]
  {
  }

  lemma MaskWith(x: bv8, mask: bv8, n: nat)
    requires 0 < n <= 8
    requires ByteBits(mask) == Pad8(seq(n, _ => true))
    ensures ByteBits(x & mask) == Pad8(ByteBits(x)[..n])
  {
    AndBits(x, mask);
    MaskedBits(ByteBits(x), ByteBits(mask), ByteBits(x & mask), n);
  }

  /** `0xFF >> (8 - n)` has exactly the low n bits set. */
  lemma MaskOf(ones: bv8, n: nat)
    requires 0 < n <= 8 && ones == 0xFF
    ensures ByteBits(Shr(ones, 8 - n)) == Pad8(seq(n, _ => true))
  {
    OnesBits();
    ShiftRightBits(ones, 8 - n);
  }

  /** Masking with `0xFF >> (8 - n)` keeps the low n bits. */
  lemma MaskBits(x: bv8, n: nat)
    requires 0 < n <= 8
    ensures ByteBits(KeepLow(x, n)) == Pad8(ByteBits(x)[..n])
  {
    MaskOf(0xFF, n);
    MaskWith(x, Shr(0xFF, 8 - n), n);
  }

  lemma OrPadded(last: bv8, shifted: bv8, p: seq<bool>, q: seq<bool>)
    requires |p| < 8 && |q| <= 8
    requires ByteBits(last) == Pad8(p) && ByteBits(shifted) == Zeros(|p|) + Pad8(q)[..8 - |p|]
    ensures ByteBits(last | shifted) == if |p + q| <= 8 then Pad8(p + q) else (p + q)[..8]
  {
    OrBits(last, shifted);
    JoinedBits(ByteBits(last), ByteBits(shifted), ByteBits(last | shifted), p, q);
  }

  lemma OrSpliced(low: bv8, high: bv8, a: seq<bool>, b: seq<bool>, k: nat)
    requires 0 < k < 8 && |a| == |b| == 8
    requires ByteBits(low) == a[k..] + Zeros(k) && ByteBits(high) == Zeros(8 - k) + b[..k]
    ensures ByteBits(low | high) == a[k..] + b[..k]
  {
    OrBits(low, high);
    SplicedBits(ByteBits(low), ByteBits(high), ByteBits(low | high), a, b, k);
  }

  /** The writer's step: a pending byte holding p, joined with a byte holding q
      shifted past it, holds p + q cut at eight bits. */
  lemma JoinBits(last: bv8, inByte: bv8, p: seq<bool>, q: seq<bool>)
    requires |p| < 8 && |q| <= 8
    requires ByteBits(last) == Pad8(p) && ByteBits(inByte) == Pad8(q)
    ensures ByteBits(last | Shl(inByte, |p|)) == if |p + q| <= 8 then Pad8(p + q) else (p + q)[..8]
  {
    ShiftLeftBits(inByte, |p|);
    OrPadded(last, Shl(inByte, |p|), p, q);
  }

  /** The reader's step: the unread top of one byte joined with the low bits of the next. */
  lemma SpliceBits(a: bv8, b: bv8, k: nat)
    requires 0 < k < 8
    ensures ByteBits(Shr(a, k) | Shl(b, 8 - k)) == ByteBits(a)[k..] + ByteBits(b)[..k]
  {
    var low, high := Shr(a, k), Shl(b, 8 - k);
    assert ByteBits(low) == ByteBits(a)[k..] + Zeros(k) by { ShiftRightBits(a, k); }
    assert ByteBits(high) == Zeros(8 - k) + ByteBits(b)[..k] by { ShiftLeftBits(b, 8 - k); }
    OrSpliced(low, high, ByteBits(a), ByteBits(b), k);
  }

  // ---- bytes read back from bits ----

  /** The byte whose low bits are s, least significant first. */
  function ByteFrom(s: seq<bool>): bv8 {
    if s == [] then 0 else (ByteFrom(s[1..]) << 1) | (if s[0] then 1 else 0)
  }

  lemma LowBit(x: bv8, low: bool, i: nat)
    requires i < 8
    ensures Bit((x << 1) | (if low then 1 else 0), i) == if i == 0 then low else Bit(x, i - 1)
  {
    match i
    case 0 =>
    case 1 =>
    case 2 =>
    case 3 =>
    case 4 =>
    case 5 =>
    case 6 =>
    case 7 =>
  }

  lemma {:induction false} ByteFromBit(s: seq<bool>, i: nat)
    requires |s| <= 8 && i < 8
    ensures Bit(ByteFrom(s), i) == (i < |s| && s[i])
  {
    if s == [] {
      ZeroBits();
      ByteBitsAt(0);
      assert ByteBits(0)[i] == Zeros(8)[i];
    } else {
      LowBit(ByteFrom(s[1..]), s[0], i);
      if i > 0 {
        ByteFromBit(s[1..], i - 1);
      }
    }
  }

  lemma ByteFromBits(s: seq<bool>)
    requires |s| <= 8
    ensures ByteBits(ByteFrom(s)) == Pad8(s)
  {
    var b := ByteFrom(s);
    ByteBitsAt(b);
    forall i | 0 <= i < 8
      ensures ByteBits(b)[i] == Pad8(s)[i]
    {
      ByteFromBit(s, i);
    }
  }

  /** The bytes spelled by a bit sequence, the last one filled up with zero bits. */
  function BytesFrom(s: seq<bool>): (r: seq<bv8>)
    ensures |r| == (|s| + 7) / 8
  {
    if s == [] then []
    else if |s| <= 8 then [ByteFrom(s)]
    else [ByteFrom(s[..8])] + BytesFrom(s[8..])
  }

  /** Zero bits up to the next byte boundary. */
  function PadTo8(s: seq<bool>): (r: seq<bool>) {
    s + Zeros((8 - |s| % 8) % 8)
  }

  lemma PadTo8Drop(s: seq<bool>)
    requires |s| > 8
    ensures PadTo8(s) == s[..8] + PadTo8(s[8..])
  {
  }

  lemma {:induction false} BitsOfBytesFrom(s: seq<bool>)
    ensures BitsOf(BytesFrom(s)) == PadTo8(s)
  {
    if s == [] {
    } else if |s| <= 8 {
      ByteFromBits(s);
      BitsOfOne(ByteFrom(s));
    } else {
      var head, rest := s[..8], s[8..];
      assert BitsOf([ByteFrom(head)]) == head by {
        ByteFromBits(head);
        BitsOfOne(ByteFrom(head));
      }
      BitsOfBytesFrom(rest);
      BitsOfAppend([ByteFrom(head)], BytesFrom(rest));
      PadTo8Drop(s);
    }
  }

  /** Reading bits back as bytes undoes spelling bytes as bits. */
  lemma BytesFromBitsOf(a: seq<bv8>)
    ensures BytesFrom(BitsOf(a)) == a
  {
    BitsOfBytesFrom(BitsOf(a));
    assert PadTo8(BitsOf(a)) == BitsOf(a);
    BitsOfInjective(BytesFrom(BitsOf(a)), a);
  }

  lemma BytesFromUnique(s: seq<bool>, a: seq<bv8>)
    requires BitsOf(a) == PadTo8(s)
    ensures a == BytesFrom(s)
  {
    BitsOfBytesFrom(s);
    BitsOfInjective(BytesFrom(s), a);
  }

  // ---- little-endian numbers ----

  function Pow256(k: nat): (r: nat)
    ensures r > 0
  {
    if k == 0 then 1 else 256 * Pow256(k - 1)
  }

  /** `to_le_bytes` of an unsigned number of k bytes. */
  function LeBytes(n: nat, k: nat): (r: seq<bv8>)
    ensures |r| == k
  {
    if k == 0 then [] else [(n % 256) as bv8] + LeBytes(n / 256, k - 1)
  }

  /** `from_le_bytes`. */
  function FromLe(b: seq<bv8>): (r: nat)
    ensures r < Pow256(|b|)
  {
    if b == [] then 0 else b[0] as int + 256 * FromLe(b[1..])
  }

  predicate Odd(n: nat) {
    n % 2 == 1
  }

  /** m halved i times. */
  function Halved(m: nat, i: nat): nat {
    if i == 0 then m else Halved(m, i - 1) / 2
  }

  lemma HalvedValues(m: nat)
    ensures Halved(m, 0) == m && Halved(m, 1) == m / 2 && Halved(m, 2) == m / 4 && Halved(m, 3) == m / 8
    ensures Halved(m, 4) == m / 16 && Halved(m, 5) == m / 32 && Halved(m, 6) == m / 64
    ensures Halved(m, 7) == m / 128 && Halved(m, 8) == m / 256
  {
    assert Halved(m, 1) == m / 2;
    assert Halved(m, 2) == m / 4;
    assert Halved(m, 3) == m / 8;
    assert Halved(m, 4) == m / 16;
    assert Halved(m, 5) == m / 32;
    assert Halved(m, 6) == m / 64;
    assert Halved(m, 7) == m / 128;
  }

  lemma IntBit(m: nat, i: nat)
    requires m < 256 && i < 8
    ensures Bit(m as bv8, i) == Odd(Halved(m, i))
  {
    HalvedValues(m);
    match i
    case 0 =>
    case 1 =>
    case 2 =>
    case 3 =>
    case 4 =>
    case 5 =>
    case 6 =>
    case 7 =>
  }

  lemma {:induction false} SameHalves(m: nat, n: nat, i: nat)
    requires i <= 8 && Halved(m, 8) == Halved(n, 8)
    requires forall j :: i <= j < 8 ==> Odd(Halved(m, j)) == Odd(Halved(n, j))
    ensures Halved(m, i) == Halved(n, i)
    decreases 8 - i
  {
    if i < 8 {
      SameHalves(m, n, i + 1);
    }
  }

  lemma HalvedToZero(m: nat)
    requires m < 256
    ensures Halved(m, 8) == 0
  {
    HalvedValues(m);
  }

  lemma SameOdds(m: nat, n: nat)
    requires m < 256 && n < 256 && m as bv8 == n as bv8
    ensures forall j :: 0 <= j < 8 ==> Odd(Halved(m, j)) == Odd(Halved(n, j))
  {
    var b := m as bv8;
    forall j | 0 <= j < 8
      ensures Odd(Halved(m, j)) == Odd(Halved(n, j))
    {
      assert Odd(Halved(m, j)) == Bit(b, j) by { IntBit(m, j); }
      assert Odd(Halved(n, j)) == Bit(b, j) by { IntBit(n, j); }
    }
  }

  lemma IntOfByteEq(m: nat, n: nat)
    requires m < 256 && n < 256 && m as bv8 == n as bv8
    ensures m == n
  {
    SameOdds(m, n);
    HalvedToZero(m);
    HalvedToZero(n);
    SameHalves(m, n, 0);
  }

  lemma ByteOfInt(m: nat)
    requires m < 256
    ensures (m as bv8) as int == m
  {
    IntOfByte(m as bv8);
    IntOfByteEq(m, (m as bv8) as int);
  }

  lemma IntOfByte(b: bv8)
    ensures (b as int) as bv8 == b
  {
  }

  lemma {:induction false} FromLeOfLeBytes(n: nat, k: nat)
    requires n < Pow256(k)
    ensures FromLe(LeBytes(n, k)) == n
  {
    if k > 0 {
      ByteOfInt(n % 256);
      FromLeOfLeBytes(n / 256, k - 1);
    }
  }

  /** Every sequence of bytes is the little-endian form of one number. */
  lemma {:induction false} LeBytesOfFromLe(b: seq<bv8>)
    ensures LeBytes(FromLe(b), |b|) == b
  {
    if b != [] {
      LeBytesOfFromLe(b[1..]);
      IntOfByte(b[0]);
      var low, high := b[0] as int, FromLe(b[1..]);
      LowByte(low, high);
      assert FromLe(b) == low + 256 * high;
      assert b == [b[0]] + b[1..];
    }
  }

  lemma LowByte(low: nat, high: nat)
    requires low < 256
    ensures (low + 256 * high) % 256 == low && (low + 256 * high) / 256 == high
  {
  }
}
