/** __libc_detect_null: one word operation that finds the zero bytes of a word. */
module NullDetect {

  /** On a 32-bit long. */
  function Detect32(w: bv32): bv32 {
    var mask: bv32 := 0x7f7f_7f7f;
    !(((w & mask) + mask) | w | mask)
  }

  /** On a 64-bit long the mask is doubled. */
  function Detect64(w: bv64): bv64 {
    var half: bv64 := 0x7f7f_7f7f;
    var mask := ((half << 16) << 16) | half;
    !(((w & mask) + mask) | w | mask)
  }

  // ---- Words of any number of bytes, least significant first ----

  type Word = seq<bv8>

  function Mask(n: nat): (m: Word)
    ensures |m| == n
  {
    seq(n, i => 0x7f)
  }

  function And(a: Word, b: Word): (r: Word)
    requires |a| == |b|
    ensures |r| == |a|
  {
    seq(|a|, i requires 0 <= i < |a| => a[i] & b[i])
  }

  function Or(a: Word, b: Word): (r: Word)
    requires |a| == |b|
    ensures |r| == |a|
  {
    seq(|a|, i requires 0 <= i < |a| => a[i] | b[i])
  }

  function Not(a: Word): (r: Word)
    ensures |r| == |a|
  {
    seq(|a|, i requires 0 <= i < |a| => !a[i])
  }

  /** Sum of two bytes and a carry, with the carry out in the high half. */
  function AddByte(a: bv8, b: bv8, carry: bv16): bv16 {
    (a as bv16) + (b as bv16) + carry
  }

  function LowHalf(sum: bv16): bv8 {
    (sum & 0xFF) as bv8
  }

  function HighHalf(sum: bv16): bv16 {
    sum >> 8
  }

  /** Addition byte by byte, the carry rippling upwards. */
  function Add(a: Word, b: Word, carry: bv16): (r: Word)
    requires |a| == |b|
    ensures |r| == |a|
    decreases |a|
  {
    if a == [] then []
    else
      var sum := AddByte(a[0], b[0], carry);
      [LowHalf(sum)] + Add(a[1..], b[1..], HighHalf(sum))
  }

  function Detect(w: Word): (r: Word)
    ensures |r| == |w|
  {
    var mask := Mask(|w|);
    Not(Or(Or(Add(And(w, mask), mask, 0), w), mask))
  }

  lemma NoCarryOut(byte: bv8)
    ensures HighHalf(AddByte(byte & 0x7f, 0x7f, 0)) == 0
    ensures LowHalf(AddByte(byte & 0x7f, 0x7f, 0)) == (byte & 0x7f) + 0x7f
  {
  }

  lemma OneByte(byte: bv8)
    ensures !((((byte & 0x7f) + 0x7f) | byte) | 0x7f) == if byte == 0 then 0x80 else 0
  {
  }

  predicate NoCarry(a: Word, b: Word)
    requires |a| == |b|
  {
    forall i :: 0 <= i < |a| ==> HighHalf(AddByte(a[i], b[i], 0)) == 0
  }

  /** Where no byte carries, each byte of the sum depends on its own two bytes only. */
  lemma {:induction false} AddsApart(a: Word, b: Word, i: nat)
    requires i < |a| == |b|
    requires NoCarry(a, b)
    ensures Add(a, b, 0)[i] == LowHalf(AddByte(a[i], b[i], 0))
    decreases |a|
  {
    if i > 0 {
      assert a[1..][i - 1] == a[i] && b[1..][i - 1] == b[i];
      AddsApart(a[1..], b[1..], i - 1);
    }
  }

  /** No carry crosses a byte. */
  lemma AddsByBytes(w: Word, i: nat)
    requires i < |w|
    ensures Add(And(w, Mask(|w|)), Mask(|w|), 0)[i] == (w[i] & 0x7f) + 0x7f
  {
    forall k | 0 <= k < |w|
      ensures HighHalf(AddByte(And(w, Mask(|w|))[k], Mask(|w|)[k], 0)) == 0
    {
      NoCarryOut(w[k]);
    }
    AddsApart(And(w, Mask(|w|)), Mask(|w|), i);
    NoCarryOut(w[i]);
  }

  /** For a word of any width: 0x80 in exactly the zero bytes, 0 in all others. */
  lemma DetectsZeros(w: Word, i: nat)
    requires i < |w|
    ensures Detect(w)[i] == if w[i] == 0 then 0x80 else 0
  {
    AddsByBytes(w, i);
    OneByte(w[i]);
  }

  function Byte32(w: bv32, i: nat): bv8
    requires i < 4
  {
    if i == 0 then (w & 0xFF) as bv8
    else if i == 1 then ((w >> 8) & 0xFF) as bv8
    else if i == 2 then ((w >> 16) & 0xFF) as bv8
    else ((w >> 24) & 0xFF) as bv8
  }

  function Bytes32(w: bv32): (r: Word)
    ensures |r| == 4
  {
    [Byte32(w, 0), Byte32(w, 1), Byte32(w, 2), Byte32(w, 3)]
  }

  lemma Byte32Detects(w: bv32)
    ensures forall i: nat :: i < 4 ==> Byte32(Detect32(w), i) == if Byte32(w, i) == 0 then 0x80 else 0
  {
  }

  /** The machine word operation is the byte-wise one on 4 bytes. */
  lemma Detect32IsDetect(w: bv32)
    ensures Bytes32(Detect32(w)) == Detect(Bytes32(w))
    ensures Detect32(w) == 0 <==> 0 !in Bytes32(w)
  {
    Byte32Detects(w);
    forall i: nat | i < 4
      ensures Bytes32(Detect32(w))[i] == Detect(Bytes32(w))[i]
    {
      DetectsZeros(Bytes32(w), i);
    }
    ZeroBytes(Detect32(w));
  }

  lemma ZeroBytes(w: bv32)
    ensures w == 0 <==> Byte32(w, 0) == 0 && Byte32(w, 1) == 0 && Byte32(w, 2) == 0 && Byte32(w, 3) == 0
  {
  }

  // ---- The doubled mask ----

  function HighWord(w: bv64): bv32 {
    (w >> 32) as bv32
  }

  function LowWord(w: bv64): bv32 {
    (w & 0xffff_ffff) as bv32
  }

  function Bytes64(w: bv64): (r: Word)
    ensures |r| == 8
  {
    Bytes32(LowWord(w)) + Bytes32(HighWord(w))
  }

  /** The doubled mask makes two 32-bit detections side by side. */
  lemma Detect64ByHalves(w: bv64)
    ensures HighWord(Detect64(w)) == Detect32(HighWord(w))
    ensures LowWord(Detect64(w)) == Detect32(LowWord(w))
  {
  }

  lemma ZeroHalves(w: bv64)
    ensures w == 0 <==> HighWord(w) == 0 && LowWord(w) == 0
  {
  }

  /** The machine word operation is the byte-wise one on 8 bytes. */
  lemma Detect64IsDetect(w: bv64)
    ensures Bytes64(Detect64(w)) == Detect(Bytes64(w))
    ensures Detect64(w) == 0 <==> 0 !in Bytes64(w)
  {
    var low, high := LowWord(w), HighWord(w);
    Detect64ByHalves(w);
    Detect32IsDetect(low);
    Detect32IsDetect(high);
    forall i: nat | i < 8
      ensures Bytes64(Detect64(w))[i] == Detect(Bytes64(w))[i]
    {
      DetectsZeros(Bytes64(w), i);
      if i < 4 {
        DetectsZeros(Bytes32(low), i);
      } else {
        DetectsZeros(Bytes32(high), i - 4);
      }
    }
    ZeroHalves(Detect64(w));
  }
}
