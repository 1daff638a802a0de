/** The bit writer behind the public data of a block. */
module BitEncoder {
  import opened Field

  type Byte = x: nat | x < 256

  /** The SHA-256 digest read as a big-endian number, left uninterpreted. */
  const SHA256: seq<Byte> -> nat

  /** What an encoding step can come to. `Panic` is a failed conversion to a 64-bit integer. */
  datatype EncodeResult = Done | DoesNotFit | NotAligned(missing: nat) | Panic

  // ------------------------------------------------------------- bits and bytes

  /** The weight of each bit of a byte, most significant first. */
  function Mask(k: nat): (m: nat)
    requires k < 8
    ensures m > 0
  {
    if k == 0 then 128
    else if k == 1 then 64
    else if k == 2 then 32
    else if k == 3 then 16
    else if k == 4 then 8
    else if k == 5 then 4
    else if k == 6 then 2
    else 1
  }

  /** Up to eight bits, most significant first, as the value of the byte they begin. */
  function Pack(bits: seq<bool>): nat
    requires |bits| <= 8
  {
    if bits == [] then
      0
    else
      Pack(bits[..|bits| - 1]) + if bits[|bits| - 1] then Mask(|bits| - 1) else 0
  }

  function Unpack(byte: nat): seq<bool> {
    [byte / 128 % 2 == 1, byte / 64 % 2 == 1, byte / 32 % 2 == 1, byte / 16 % 2 == 1,
     byte / 8 % 2 == 1, byte / 4 % 2 == 1, byte / 2 % 2 == 1, byte % 2 == 1]
  }

  /** A byte sequence read back as bits. */
  function BytesToBits(bytes: seq<Byte>): (bits: seq<bool>)
    ensures |bits| == 8 * |bytes|
  {
    if bytes == [] then [] else BytesToBits(bytes[..|bytes| - 1]) + Unpack(bytes[|bytes| - 1])
  }

  /** The low `width` bits of a number, least significant first. */
  function LsbBits(n: nat, width: nat): (bits: seq<bool>)
    ensures |bits| == width
  {
    if width == 0 then [] else [n % 2 == 1] + LsbBits(n / 2, width - 1)
  }

  function LsbValue(bits: seq<bool>): nat {
    if bits == [] then 0 else (if bits[0] then 1 else 0) + 2 * LsbValue(bits[1..])
  }

  function Zeros(n: nat): seq<bool> {
    seq(n, _ => false)
  }

  /** The number of zero bits up to the next multiple of `align`. */
  function PadTo(total: nat, align: nat): nat
    requires align > 0
  {
    if total % align == 0 then 0 else align - total % align
  }

  lemma ZerosSum(a: nat, b: nat)
    ensures Zeros(a) + Zeros(b) == Zeros(a + b)
  {
  }

  lemma PackStep(bits: seq<bool>, bit: bool)
    requires |bits| < 8
    ensures Pack(bits + [bit]) == Pack(bits) + if bit then Mask(|bits|) else 0
  {
    assert (bits + [bit])[..|bits|] == bits;
  }

  /** The partial byte leaves room for all bits still to come: adding a mask never overflows. */
  lemma {:induction false} PackBound(bits: seq<bool>)
    requires |bits| <= 8
    ensures |bits| == 0 ==> Pack(bits) == 0
    ensures |bits| > 0 ==> Pack(bits) + Mask(|bits| - 1) <= 256
  {
    if |bits| > 0 {
      PackBound(bits[..|bits| - 1]);
    }
  }

  function Bit(b: bool): nat {
    if b then 1 else 0
  }

  lemma PackTake(b: seq<bool>, k: nat, mask: nat)
    requires |b| == 8 && k < 8 && mask == Mask(k)
    ensures Pack(b[..k + 1]) == Pack(b[..k]) + mask * Bit(b[k])
  {
    assert b[..k + 1] == b[..k] + [b[k]];
    PackStep(b[..k], b[k]);
  }

  lemma PackEight(b: seq<bool>)
    requires |b| == 8
    ensures Pack(b) == 128 * Bit(b[0]) + 64 * Bit(b[1]) + 32 * Bit(b[2]) + 16 * Bit(b[3])
                     + 8 * Bit(b[4]) + 4 * Bit(b[5]) + 2 * Bit(b[6]) + Bit(b[7])
  {
    assert Pack(b[..0]) == 0 && b[..8] == b;
    hide Pack, Bit;
    PackTake(b, 0, 128);
    PackTake(b, 1, 64);
    PackTake(b, 2, 32);
    PackTake(b, 3, 16);
    PackTake(b, 4, 8);
    PackTake(b, 5, 4);
    PackTake(b, 6, 2);
    PackTake(b, 7, 1);
  }

  /** Eight bits in their places: each is found where it was put. */
  lemma BitsInPlace(v: nat, x0: nat, x1: nat, x2: nat, x3: nat, x4: nat, x5: nat, x6: nat, x7: nat)
    requires x0 <= 1 && x1 <= 1 && x2 <= 1 && x3 <= 1 && x4 <= 1 && x5 <= 1 && x6 <= 1 && x7 <= 1
    requires v == 128 * x0 + 64 * x1 + 32 * x2 + 16 * x3 + 8 * x4 + 4 * x5 + 2 * x6 + x7
    ensures v / 128 % 2 == x0 && v / 64 % 2 == x1 && v / 32 % 2 == x2 && v / 16 % 2 == x3
    ensures v / 8 % 2 == x4 && v / 4 % 2 == x5 && v / 2 % 2 == x6 && v % 2 == x7
  {
    var h4 := 8 * x0 + 4 * x1 + 2 * x2 + x3;
    assert v / 16 == h4;
    assert v / 32 == h4 / 2 && v / 64 == h4 / 4 && v / 128 == h4 / 8;
    assert v / 8 == 2 * h4 + x4;
    assert v / 4 == 2 * (2 * h4 + x4) + x5;
    assert v / 2 == 2 * (2 * (2 * h4 + x4) + x5) + x6;
  }

  /** A full byte determines its eight bits. */
  lemma UnpackPack(b: seq<bool>)
    requires |b| == 8
    ensures Unpack(Pack(b)) == b
  {
    var v := Pack(b);
    PackEight(b);
    hide Pack;
    assert b == [b[0], b[1], b[2], b[3], b[4], b[5], b[6], b[7]];
    BitsInPlace(v, Bit(b[0]), Bit(b[1]), Bit(b[2]), Bit(b[3]), Bit(b[4]), Bit(b[5]), Bit(b[6]), Bit(b[7]));
  }

  /** Zero bits leave a partial byte as it is. */
  lemma {:induction false} PackPadded(bits: seq<bool>, n: nat)
    requires |bits| + n <= 8
    ensures Pack(bits + Zeros(n)) == Pack(bits)
  {
    hide Pack;
    if n == 0 {
      assert bits + Zeros(0) == bits;
    } else {
      PackPadded(bits, n - 1);
      PackStep(bits + Zeros(n - 1), false);
      assert bits + Zeros(n) == bits + Zeros(n - 1) + [false];
    }
  }

  lemma NoZeros()
    ensures Zeros(0) == []
  {
  }

  /** A partial byte written out reads as its bits, completed with zeros. */
  lemma LastByte(bytes: seq<Byte>, bits: seq<bool>, byte: Byte)
    requires 0 < |bits| < 8 && byte == Pack(bits)
    ensures BytesToBits(bytes + [byte]) == BytesToBits(bytes) + (bits + Zeros(8 - |bits|))
  {
    hide Pack, Unpack;
    PackPadded(bits, 8 - |bits|);
    UnpackPack(bits + Zeros(8 - |bits|));
    assert (bytes + [byte])[..|bytes|] == bytes;
  }

  /** A number that fits is recovered from its bits. */
  lemma {:induction false} LsbRoundTrip(n: nat, width: nat)
    ensures LsbValue(LsbBits(n, width)) == n % Pow2(width)
    ensures n < Pow2(width) ==> LsbValue(LsbBits(n, width)) == n
  {
    if width > 0 {
      LsbRoundTrip(n / 2, width - 1);
      assert LsbBits(n, width)[1..] == LsbBits(n / 2, width - 1);
      ModHalves(n, Pow2(width - 1));
    }
  }

  // ---------------------------------------------------------------- the writer

  class BitEncodeContext {
    var encodingBuf: seq<Byte>
    var applyingBit: nat
    var encodingChar: Byte
    /** Everything written so far, bit by bit. */
    ghost var bits: seq<bool>

    ghost predicate Valid()
      reads this
    {
      && applyingBit < 8
      && |bits| == 8 * |encodingBuf| + applyingBit
      && BytesToBits(encodingBuf) == bits[..8 * |encodingBuf|]
      && encodingChar == Pack(bits[8 * |encodingBuf|..])
    }

    constructor ()
      ensures Valid() && bits == []
    {
      encodingBuf, applyingBit, encodingChar := [], 0, 0;
      bits := [];
    }

    method ApplyBit(isZero: bool)
      requires Valid()
      modifies this
      ensures Valid() && bits == old(bits) + [!isZero]
    {
      hide Pack, BytesToBits;
      ghost var full := 8 * |encodingBuf|;
      PackStep(bits[full..], !isZero);
      PackBound(bits[full..] + [!isZero]);
      bits := bits + [!isZero];
      assert bits[full..] == old(bits)[full..] + [!isZero];
      assert bits[..full] == old(bits)[..full];
      if !isZero {
        encodingChar := encodingChar + Mask(applyingBit);
      }
      applyingBit := applyingBit + 1;
      if applyingBit == 8 {
        NextByte();
      }
    }

    /** The full byte goes out. */
    method NextByte()
      requires applyingBit == 8 && |bits| == 8 * |encodingBuf| + 8
      requires BytesToBits(encodingBuf) == bits[..8 * |encodingBuf|] && encodingChar == Pack(bits[8 * |encodingBuf|..])
      modifies this`encodingBuf, this`applyingBit, this`encodingChar
      ensures Valid()
    {
      ghost var full := 8 * |encodingBuf|;
      UnpackPack(bits[full..]);
      PackBound([]);
      hide Pack, Unpack;
      encodingBuf := encodingBuf + [encodingChar];
      assert encodingBuf[..|encodingBuf| - 1] == old(encodingBuf);
      assert bits[..full] + bits[full..] == bits;
      applyingBit, encodingChar := 0, 0;
    }

    /** The bytes of the whole stream, its last byte completed with zero bits. */
    method Seal() returns (bytes: seq<Byte>)
      requires Valid()
      ensures BytesToBits(bytes) == bits + Zeros(PadTo(|bits|, 8))
      ensures |bits| % 8 == 0 ==> |bytes| == |bits| / 8 && BytesToBits(bytes) == bits
    {
      hide Pack, Unpack, BytesToBits, Zeros;
      ghost var full := 8 * |encodingBuf|;
      assert bits[..full] + bits[full..] == bits;
      assert Zeros(0) == [] by { NoZeros(); }
      assert bits + [] == bits;
      bytes := encodingBuf;
      if applyingBit != 0 {
        LastByte(encodingBuf, bits[full..], encodingChar);
        assert bits[..full] + (bits[full..] + Zeros(8 - applyingBit)) == bits + Zeros(8 - applyingBit);
        bytes := bytes + [encodingChar];
      }
    }

    /** Appends the low bits least significant first; reports an error exactly when the number is too wide. */
    method EncodeNumber(n: nat, width: nat) returns (r: EncodeResult)
      requires Valid()
      modifies this
      ensures Valid() && bits == old(bits) + LsbBits(n, width)
      ensures r == if n < Pow2(width) then Done else DoesNotFit
    {
      hide Pack, BytesToBits;
      var rest: nat, i: nat := n, width;
      while i > 0
        invariant 0 <= i <= width && Valid()
        invariant bits + LsbBits(rest, i) == old(bits) + LsbBits(n, width)
        invariant n < Pow2(width) <==> rest < Pow2(i)
      {
        ApplyBit(rest % 2 == 0);
        assert LsbBits(rest, i) == [rest % 2 != 0] + LsbBits(rest / 2, i - 1);
        assert bits + LsbBits(rest / 2, i - 1) == old(bits) + LsbBits(n, width);
        rest := rest / 2;
        i := i - 1;
      }
      r := if rest != 0 then DoesNotFit else Done;
    }

    method CheckAlign(at: nat) returns (r: EncodeResult)
      requires Valid() && at > 0
      ensures r == if |bits| % at == 0 then Done else NotAligned(at - |bits| % at)
    {
      var totalBits := |encodingBuf| * 8 + applyingBit;
      r := if totalBits % at == 0 then Done else NotAligned(at - totalBits % at);
    }

    /** Zero bits up to the next multiple; whole bytes are appended at once when on a byte boundary. */
    method Padding(alignAt: nat)
      requires Valid() && alignAt > 0
      modifies this
      ensures Valid() && bits == old(bits) + Zeros(PadTo(|old(bits)|, alignAt))
    {
      var totalBits := |encodingBuf| * 8 + applyingBit;
      if totalBits % alignAt == 0 {
        assert bits == bits + Zeros(0);
        return;
      }
      var padding := alignAt - totalBits % alignAt;
      ghost var all := padding;
      assert Zeros(0) == [] && Zeros(1) == [false];
      hide Zeros, Pack, BytesToBits;
      while padding > 0
        invariant 0 <= padding <= all && Valid() && bits == old(bits) + Zeros(all - padding)
      {
        if padding >= 8 && applyingBit == 0 {
          var padBytes := padding / 8;
          padding := padding - padBytes * 8;
          ZerosSum(all - padding - 8 * padBytes, 8 * padBytes);
          AppendZeroBytes(padBytes);
        } else {
          ZerosSum(all - padding, 1);
          ApplyBit(true);
          padding := padding - 1;
        }
      }
    }

    method AppendZeroBytes(count: nat)
      requires Valid() && applyingBit == 0
      modifies this
      ensures Valid() && applyingBit == 0 && bits == old(bits) + Zeros(8 * count)
    {
      ZeroBytes(encodingBuf, count);
      encodingBuf := encodingBuf + seq(count, _ => 0);
      bits := bits + Zeros(8 * count);
      assert old(bits)[..|old(bits)|] == old(bits);
      assert bits[..|bits|] == bits;
    }
  }

  lemma {:induction false} ZeroBytes(bytes: seq<Byte>, count: nat)
    ensures BytesToBits(bytes + seq<Byte>(count, _ => 0)) == BytesToBits(bytes) + Zeros(8 * count)
  {
    UnpackZero();
    hide Unpack;
    var more: seq<Byte> := bytes + seq(count, _ => 0);
    if count == 0 {
      assert more == bytes;
    } else {
      ZeroBytes(bytes, count - 1);
      assert more[..|more| - 1] == bytes + seq<Byte>(count - 1, _ => 0);
      ZerosSum(8 * (count - 1), 8);
    }
  }

  lemma UnpackZero()
    ensures Unpack(0) == Zeros(8)
  {
  }
}
