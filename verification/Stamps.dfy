/** Powers of two and big-endian integers. */
module BigEndian {
  import opened Common

  function Pow2(n: nat): (r: nat)
    ensures r > 0
  {
    if n == 0 then 1 else 2 * Pow2(n - 1)
  }

  lemma TwiceProduct(x: nat, y: nat)
    ensures 2 * (x * y) == (2 * x) * y
  {
  }

  lemma {:induction false} Pow2Sum(a: nat, b: nat)
    ensures Pow2(a + b) == Pow2(a) * Pow2(b)
  {
    if a > 0 {
      Pow2Sum(a - 1, b);
      TwiceProduct(Pow2(a - 1), Pow2(b));
      assert Pow2(a + b) == 2 * Pow2(a - 1 + b);
    }
  }

  lemma {:induction false} Pow2Grows(a: nat, b: nat)
    requires a <= b
    ensures Pow2(a) <= Pow2(b)
    decreases b
  {
    if a < b {
      Pow2Grows(a, b - 1);
    }
  }

  lemma MulGrows(a: nat, b: nat, p: nat)
    requires a <= b
    ensures a * p <= b * p
  {
  }

  lemma Pow2Byte(n: nat)
    ensures Pow2(8 + n) == 256 * Pow2(n)
  {
    assert Pow2(8) == 256;
    Pow2Sum(8, n);
  }

  /** The value of a byte string read most significant byte first. */
  function Value(s: seq<byte>): nat {
    if s == [] then 0 else s[0] * Pow2(8 * (|s| - 1)) + Value(s[1..])
  }

  lemma {:induction false} ValueBound(s: seq<byte>)
    ensures Value(s) < Pow2(8 * |s|)
  {
    if s != [] {
      var n := 8 * (|s| - 1);
      ValueBound(s[1..]);
      Pow2Byte(n);
      MulGrows(s[0], 255, Pow2(n));
      assert 8 * |s| == 8 + n;
    }
  }

  /** At the first byte that differs, the byte comparison decides the comparison of the integers. */
  lemma {:induction false} FirstDifferenceDecides(a: seq<byte>, b: seq<byte>, i: nat)
    requires |a| == |b| && i < |a| && a[..i] == b[..i] && a[i] < b[i]
    ensures Value(a) < Value(b)
  {
    if i == 0 {
      var p := Pow2(8 * (|a| - 1));
      ValueBound(a[1..]);
      MulGrows(a[0] + 1, b[0], p);
      assert (a[0] + 1) * p == a[0] * p + p;
    } else {
      assert a[0] == a[..i][0] == b[..i][0] == b[0];
      assert a[1..][..i - 1] == a[..i][1..] && b[1..][..i - 1] == b[..i][1..];
      FirstDifferenceDecides(a[1..], b[1..], i - 1);
    }
  }

  /** n bytes, all zero except v at distance k from the end. */
  function Spike(n: nat, k: nat, v: byte): seq<byte> {
    seq(n, i => if i == n - 1 - k then v else 0)
  }

  lemma {:induction false} SpikeValue(n: nat, k: nat, v: byte)
    ensures Value(Spike(n, k, v)) == if k < n then v * Pow2(8 * k) else 0
  {
    var s := Spike(n, k, v);
    if n > 0 {
      SpikeValue(n - 1, k, v);
      assert s[1..] == Spike(n - 1, k, v);
      assert k != n - 1 ==> s[0] == 0;
    }
  }

  lemma {:induction false} LeadingZeroBytes(s: seq<byte>, i: nat)
    requires i <= |s| && forall k :: 0 <= k < i ==> s[k] == 0
    ensures Value(s) == Value(s[i..])
  {
    if i == 0 {
      assert s[0..] == s;
    } else {
      LeadingZeroBytes(s[1..], i - 1);
      assert s[1..][i - 1..] == s[i..];
    }
  }

  /** Leading zero bits of x in a field of the given width, counted one bit at a time. */
  function ZeroBits(x: nat, width: nat): (v: nat)
    ensures v <= width
  {
    if width == 0 || x >= Pow2(width - 1) then 0 else 1 + ZeroBits(x, width - 1)
  }

  /** The count is characterised by the two powers of two around x. */
  lemma {:induction false} ZeroBitsCharacterised(x: nat, width: nat, v: nat)
    requires x < Pow2(width) && v <= width
    ensures v == ZeroBits(x, width) <==> x < Pow2(width - v) && (v < width ==> Pow2(width - v - 1) <= x)
  {
    if width > 0 && x < Pow2(width - 1) {
      if v > 0 {
        ZeroBitsCharacterised(x, width - 1, v - 1);
      }
    } else if width > 0 && v > 0 {
      Pow2Grows(width - v, width - 1);
    }
  }
}

/**
 * lxmf-rs/src/message.rs: proof-of-work stamps. The byte loops decide and measure a 256-bit integer;
 * LXMF/LXStamper.py does the same with Python integers.
 */
module Stamps {
  import opened Common
  import opened BigEndian

  const STAMP_SIZE: nat := 32
  const LXMF_OVERHEAD: nat := 2 * 16 + 64 + 8 + 8
  const PN_ROUNDS: nat := 1000

  /** What a stamp of the given cost must satisfy, as an inequality between integers. */
  predicate MeetsCost(hash: Digest, cost: nat) {
    cost == 0 || (cost <= 256 && Value(hash) <= Pow2(256 - cost))
  }

  /** The measured value of a stamp: the leading zero bits of its hash. */
  function Worth(hash: Digest): (v: nat)
    ensures v <= 256
  {
    ZeroBits(Value(hash), 256)
  }

  /** `1 << bit` for a bit of one byte. */
  function Bit(bit: nat): (b: byte)
    requires bit < 8
    ensures b == Pow2(bit)
  {
    assert Pow2(7) == 128;
    Pow2Grows(bit, 7);
    Pow2(bit)
  }

  lemma TargetValue(shift: nat)
    requires shift < 256
    ensures Value(Spike(32, shift / 8, Bit(shift % 8))) == Pow2(shift)
  {
    SpikeValue(32, shift / 8, Bit(shift % 8));
    Pow2Sum(shift % 8, 8 * (shift / 8));
  }

  /** stamp_valid: compare the hash with a single-bit target, byte by byte. */
  method StampValid(hash: Digest, targetCost: nat) returns (r: bool)
    ensures r == MeetsCost(hash, targetCost)
  {
    if targetCost == 0 {
      return true;
    }
    if targetCost > 256 {
      return false;
    }
    var shift := 256 - targetCost;
    var target := Spike(32, shift / 8, Bit(shift % 8));
    TargetValue(shift);
    for i := 0 to 32
      invariant hash[..i] == target[..i]
    {
      if hash[i] < target[i] {
        FirstDifferenceDecides(hash, target, i);
        return true;
      }
      if hash[i] > target[i] {
        FirstDifferenceDecides(target, hash, i);
        return false;
      }
    }
    assert hash == hash[..32] == target[..32] == target;
    return true;
  }

  /** u8::leading_zeros. */
  function LeadingZeros8(b: byte): nat {
    if b >= 128 then 0 else if b >= 64 then 1 else if b >= 32 then 2 else if b >= 16 then 3
    else if b >= 8 then 4 else if b >= 4 then 5 else if b >= 2 then 6 else if b >= 1 then 7 else 8
  }

  lemma LeadingZeros8Bounds(b: byte)
    requires b > 0
    ensures var c := LeadingZeros8(b); c < 8 && Pow2(7 - c) <= b < Pow2(8 - c)
  {
    assert Pow2(3) == 8 && Pow2(5) == 32 && Pow2(7) == 128 && Pow2(8) == 256;
  }

  /** A non-zero top byte fixes the bits of the whole number. */
  lemma TopByteBits(b: byte, low: nat, rest: nat)
    requires b > 0 && rest < Pow2(low)
    ensures ZeroBits(b * Pow2(low) + rest, 8 + low) == LeadingZeros8(b)
  {
    var c, p := LeadingZeros8(b), Pow2(low);
    LeadingZeros8Bounds(b);
    Pow2Sum(7 - c, low);
    Pow2Sum(8 - c, low);
    MulGrows(Pow2(7 - c), b, p);
    MulGrows(b + 1, Pow2(8 - c), p);
    assert (b + 1) * p == b * p + p;
    Pow2Grows(8 - c + low, 8 + low);
    ZeroBitsCharacterised(b * p + rest, 8 + low, c);
  }

  lemma {:induction false} SkipZeroBits(x: nat, width: nat, k: nat)
    requires x < Pow2(width)
    ensures ZeroBits(x, width + k) == k + ZeroBits(x, width)
  {
    if k > 0 {
      Pow2Grows(width, width + k - 1);
      SkipZeroBits(x, width, k - 1);
    }
  }

  /** i zero bytes followed by a non-zero one fix the number of leading zero bits. */
  lemma WorthAtFirstNonZero(hash: Digest, i: nat)
    requires i < 32 && hash[i] != 0 && forall k :: 0 <= k < i ==> hash[k] == 0
    ensures Worth(hash) == 8 * i + LeadingZeros8(hash[i])
  {
    var s := hash[i..];
    LeadingZeroBytes(hash, i);
    assert s[0] == hash[i];
    ValueBound(s[1..]);
    TopByteBits(s[0], 8 * (|s| - 1), Value(s[1..]));
    ValueBound(s);
    SkipZeroBits(Value(s), 8 * |s|, 8 * i);
    assert 8 * |s| + 8 * i == 256;
  }

  /** stamp_value: eight per zero byte, then the leading zeros of the first non-zero byte. */
  method StampValue(hash: Digest) returns (count: nat)
    ensures count == Worth(hash)
  {
    count := 0;
    for i := 0 to 32
      invariant count == 8 * i
      invariant forall k :: 0 <= k < i ==> hash[k] == 0
    {
      if hash[i] == 0 {
        count := count + 8;
      } else {
        WorthAtFirstNonZero(hash, i);
        return count + LeadingZeros8(hash[i]);
      }
    }
    LeadingZeroBytes(hash, 32);
    ZeroBitsCharacterised(0, 256, 256);
  }

  /** LXStamper.stamp_value: shift left until the top bit is set. Does not return for an all-zero hash. */
  method PythonStampValue(hash: Digest) returns (value: nat)
    requires Value(hash) > 0
    ensures value == Worth(hash)
  {
    ValueBound(hash);
    value := CountShifts(Value(hash), 256);
  }

  method CountShifts(x: nat, bits: nat) returns (value: nat)
    requires 0 < x < Pow2(bits)
    ensures value == ZeroBits(x, bits)
  {
    var i := x;
    value := 0;
    while i < Pow2(bits - 1)
      invariant value < bits && i == x * Pow2(value) && i < Pow2(bits)
      decreases bits - value
    {
      ShiftedBounds(x, bits, value);
      i := 2 * i;
      value := value + 1;
    }
    ShiftedBounds(x, bits, value);
    ZeroBitsCharacterised(x, bits, value);
  }

  /** After v shifts, the comparison with the top bit is a comparison of the unshifted number. */
  lemma ShiftedBounds(x: nat, bits: nat, v: nat)
    requires v < bits && 0 < x && x * Pow2(v) < Pow2(bits)
    ensures x < Pow2(bits - v)
    ensures x * Pow2(v) < Pow2(bits - 1) <==> x < Pow2(bits - 1 - v)
    ensures x * Pow2(v) < Pow2(bits - 1) ==> v + 1 < bits
  {
    Pow2Sum(bits - v, v);
    Pow2Sum(bits - 1 - v, v);
    var p := Pow2(v);
    if x >= Pow2(bits - v) {
      MulGrows(Pow2(bits - v), x, p);
    }
    if x < Pow2(bits - 1 - v) {
      MulGrows(x + 1, Pow2(bits - 1 - v), p);
      assert (x + 1) * p == x * p + p;
    } else {
      MulGrows(Pow2(bits - 1 - v), x, p);
    }
  }

  /**
   * Validity and value disagree at exactly one hash per cost: the integer 2^(256 - cost) itself,
   * which is valid at that cost although its value is one less.
   */
  lemma ValidityVersusWorth(hash: Digest, cost: nat)
    requires 1 <= cost <= 256
    ensures MeetsCost(hash, cost) <==> Worth(hash) >= cost || Value(hash) == Pow2(256 - cost)
    ensures Value(hash) == Pow2(256 - cost) <==> MeetsCost(hash, cost) && Worth(hash) == cost - 1
  {
    ValueBound(hash);
    BoundVersusZeroBits(Value(hash), 256, cost);
  }

  lemma BoundVersusZeroBits(x: nat, width: nat, cost: nat)
    requires x < Pow2(width) && 1 <= cost <= width
    ensures x <= Pow2(width - cost) <==> ZeroBits(x, width) >= cost || x == Pow2(width - cost)
    ensures x == Pow2(width - cost) <==> x <= Pow2(width - cost) && ZeroBits(x, width) == cost - 1
  {
    var v := ZeroBits(x, width);
    ZeroBitsCharacterised(x, width, v);
    ZeroBitsCharacterised(x, width, cost - 1);
    if v >= cost {
      Pow2Grows(width - v, width - cost);
    } else {
      Pow2Grows(width - cost, width - v - 1);
    }
  }

  /** A stamp that pays a cost pays every lower one. */
  lemma CostAntitone(hash: Digest, low: nat, high: nat)
    requires low <= high && MeetsCost(hash, high)
    ensures MeetsCost(hash, low)
  {
    if 0 < low {
      Pow2Grows(256 - high, 256 - low);
    }
  }

  /** LXStamper.stamp_valid, for the costs at which Python's shift is defined. */
  lemma PythonStampValidAgrees(hash: Digest, cost: nat)
    requires cost <= 256
    ensures MeetsCost(hash, cost) <==> !(Value(hash) > Pow2(256 - cost))
  {
    ValueBound(hash);
  }

  /** The foreign calls behind a stamp: SHA-256 and the HKDF-expanded workblock. */
  datatype StampOracle = StampOracle(sha: seq<byte> -> Digest, workblock: (seq<byte>, nat) -> seq<byte>)

  function StampHash(o: StampOracle, material: seq<byte>, rounds: nat, stamp: seq<byte>): Digest {
    o.sha(o.workblock(material, rounds) + stamp)
  }

  datatype PnStamp = PnStamp(transientId: Digest, lxmData: seq<byte>, value: nat, stamp: seq<byte>)

  /**
   * validate_pn_stamp: the last 32 bytes are the stamp of the rest. Whatever it accepts splits the
   * input without loss and is worth at least cost - 1.
   */
  method ValidatePnStamp(o: StampOracle, transientData: seq<byte>, cost: nat) returns (r: Option<PnStamp>)
    ensures r.Some? <==>
      && |transientData| > LXMF_OVERHEAD + STAMP_SIZE
      && var cut := |transientData| - STAMP_SIZE;
         MeetsCost(StampHash(o, o.sha(transientData[..cut]), PN_ROUNDS, transientData[cut..]), cost)
    ensures r.Some? ==>
      && r.value.lxmData + r.value.stamp == transientData
      && |r.value.stamp| == STAMP_SIZE
      && r.value.transientId == o.sha(r.value.lxmData)
      && r.value.value == Worth(StampHash(o, r.value.transientId, PN_ROUNDS, r.value.stamp))
      && r.value.value >= cost - 1
  {
    if |transientData| <= LXMF_OVERHEAD + STAMP_SIZE {
      return None;
    }
    var splitAt := |transientData| - STAMP_SIZE;
    var lxmData, stamp := transientData[..splitAt], transientData[splitAt..];
    var transientId := o.sha(lxmData);
    var hash := StampHash(o, transientId, PN_ROUNDS, stamp);
    var valid := StampValid(hash, cost);
    if !valid {
      return None;
    }
    var value := StampValue(hash);
    if cost >= 1 {
      ValidityVersusWorth(hash, cost);
    }
    return Some(PnStamp(transientId, lxmData, value, stamp));
  }
}
