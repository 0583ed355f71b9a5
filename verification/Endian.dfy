/** Byte order: the encoders and decoders of sys/endian.h and the swaps of machine/endian.h. */
module Endian {

  // ---- Swaps ----

  function Bswap16(x: bv16): bv16 {
    (x >> 8) | ((x << 8) & 0xff00)
  }

  function Bswap32(x: bv32): bv32 {
    (x >> 24) | ((x >> 8) & 0xff00) | ((x << 8) & 0xff0000) | ((x << 24) & 0xff000000)
  }

  function Bswap64(x: bv64): bv64 {
    (x >> 56) | ((x >> 40) & 0xff00) | ((x >> 24) & 0xff0000) | ((x >> 8) & 0xff000000)
    | ((x << 8) & (0xff << 32)) | ((x << 24) & (0xff << 40)) | ((x << 40) & (0xff << 48)) | (x << 56)
  }

  // ---- Decoders ----

  function Be16Dec(p: seq<bv8>): bv16
    requires |p| == 2
  {
    ((p[0] as bv16) << 8) | (p[1] as bv16)
  }

  function Be32Dec(p: seq<bv8>): bv32
    requires |p| == 4
  {
    ((p[0] as bv32) << 24) | ((p[1] as bv32) << 16) | ((p[2] as bv32) << 8) | (p[3] as bv32)
  }

  function Combine(h: bv32, l: bv32): bv64 {
    ((h as bv64) << 32) | (l as bv64)
  }

  function Be64Dec(p: seq<bv8>): bv64
    requires |p| == 8
  {
    Combine(Be32Dec(p[..4]), Be32Dec(p[4..]))
  }

  function Le16Dec(p: seq<bv8>): bv16
    requires |p| == 2
  {
    ((p[1] as bv16) << 8) | (p[0] as bv16)
  }

  function Le32Dec(p: seq<bv8>): bv32
    requires |p| == 4
  {
    ((p[3] as bv32) << 24) | ((p[2] as bv32) << 16) | ((p[1] as bv32) << 8) | (p[0] as bv32)
  }

  function Le64Dec(p: seq<bv8>): bv64
    requires |p| == 8
  {
    Combine(Le32Dec(p[4..]), Le32Dec(p[..4]))
  }

  // ---- What the encoders write ----

  function Be16(u: bv16): seq<bv8> {
    [((u >> 8) & 0xff) as bv8, (u & 0xff) as bv8]
  }

  function Be32(u: bv32): seq<bv8> {
    [((u >> 24) & 0xff) as bv8, ((u >> 16) & 0xff) as bv8, ((u >> 8) & 0xff) as bv8, (u & 0xff) as bv8]
  }

  function High(u: bv64): bv32 {
    (u >> 32) as bv32
  }

  function Low(u: bv64): bv32 {
    (u & 0xffffffff) as bv32
  }

  function Be64(u: bv64): seq<bv8> {
    Be32(High(u)) + Be32(Low(u))
  }

  function Le16(u: bv16): seq<bv8> {
    [(u & 0xff) as bv8, ((u >> 8) & 0xff) as bv8]
  }

  function Le32(u: bv32): seq<bv8> {
    [(u & 0xff) as bv8, ((u >> 8) & 0xff) as bv8, ((u >> 16) & 0xff) as bv8, ((u >> 24) & 0xff) as bv8]
  }

  function Le64(u: bv64): seq<bv8> {
    Le32(Low(u)) + Le32(High(u))
  }

  /** The bytes at pp become `bytes`; every other byte keeps its value. */
  twostate predicate Wrote(buf: array<bv8>, pp: nat, bytes: seq<bv8>)
    requires pp + |bytes| <= buf.Length
    reads buf
  {
    && buf[pp..pp + |bytes|] == bytes
    && forall a :: 0 <= a < buf.Length && !(pp <= a < pp + |bytes|) ==> buf[a] == old(buf[a])
  }

  method Be16Enc(buf: array<bv8>, pp: nat, u: bv16)
    requires pp + 2 <= buf.Length
    modifies buf
    ensures Wrote(buf, pp, Be16(u))
  {
    buf[pp] := ((u >> 8) & 0xff) as bv8;
    buf[pp + 1] := (u & 0xff) as bv8;
  }

  method Be32Enc(buf: array<bv8>, pp: nat, u: bv32)
    requires pp + 4 <= buf.Length
    modifies buf
    ensures Wrote(buf, pp, Be32(u))
  {
    buf[pp] := ((u >> 24) & 0xff) as bv8;
    buf[pp + 1] := ((u >> 16) & 0xff) as bv8;
    buf[pp + 2] := ((u >> 8) & 0xff) as bv8;
    buf[pp + 3] := (u & 0xff) as bv8;
  }

  method Be64Enc(buf: array<bv8>, pp: nat, u: bv64)
    requires pp + 8 <= buf.Length
    modifies buf
    ensures Wrote(buf, pp, Be64(u))
  {
    Be32Enc(buf, pp, High(u));
    label half:
    Be32Enc(buf, pp + 4, Low(u));
    assert buf[pp..pp + 4] == old@half(buf[pp..pp + 4]);
    assert buf[pp..pp + 8] == buf[pp..pp + 4] + buf[pp + 4..pp + 8];
  }

  method Le16Enc(buf: array<bv8>, pp: nat, u: bv16)
    requires pp + 2 <= buf.Length
    modifies buf
    ensures Wrote(buf, pp, Le16(u))
  {
    buf[pp] := (u & 0xff) as bv8;
    buf[pp + 1] := ((u >> 8) & 0xff) as bv8;
  }

  method Le32Enc(buf: array<bv8>, pp: nat, u: bv32)
    requires pp + 4 <= buf.Length
    modifies buf
    ensures Wrote(buf, pp, Le32(u))
  {
    buf[pp] := (u & 0xff) as bv8;
    buf[pp + 1] := ((u >> 8) & 0xff) as bv8;
    buf[pp + 2] := ((u >> 16) & 0xff) as bv8;
    buf[pp + 3] := ((u >> 24) & 0xff) as bv8;
  }

  method Le64Enc(buf: array<bv8>, pp: nat, u: bv64)
    requires pp + 8 <= buf.Length
    modifies buf
    ensures Wrote(buf, pp, Le64(u))
  {
    Le32Enc(buf, pp, Low(u));
    label half:
    Le32Enc(buf, pp + 4, High(u));
    assert buf[pp..pp + 4] == old@half(buf[pp..pp + 4]);
    assert buf[pp..pp + 8] == buf[pp..pp + 4] + buf[pp + 4..pp + 8];
  }

  // ---- Round trips ----

  lemma Decode16(u: bv16)
    ensures Be16Dec(Be16(u)) == u && Le16Dec(Le16(u)) == u
  {
  }

  lemma Decode32(u: bv32)
    ensures Be32Dec(Be32(u)) == u && Le32Dec(Le32(u)) == u
  {
  }

  lemma Halves(u: bv64)
    ensures Combine(High(u), Low(u)) == u
  {
  }

  lemma Join(h: bv32, l: bv32)
    ensures High(Combine(h, l)) == h && Low(Combine(h, l)) == l
  {
  }

  /** Decoding undoes encoding. */
  lemma Decode64(u: bv64)
    ensures Be64Dec(Be64(u)) == u && Le64Dec(Le64(u)) == u
  {
    Decode32(High(u));
    Decode32(Low(u));
    Halves(u);
    assert Be64(u)[..4] == Be32(High(u)) && Be64(u)[4..] == Be32(Low(u));
    assert Le64(u)[..4] == Le32(Low(u)) && Le64(u)[4..] == Le32(High(u));
  }

  lemma Encode16(p: seq<bv8>)
    requires |p| == 2
    ensures Be16(Be16Dec(p)) == p && Le16(Le16Dec(p)) == p
  {
  }

  lemma Encode32(p: seq<bv8>)
    requires |p| == 4
    ensures Be32(Be32Dec(p)) == p && Le32(Le32Dec(p)) == p
  {
    Bytes32(p[0], p[1], p[2], p[3]);
  }

  lemma Bytes32(a: bv8, b: bv8, c: bv8, d: bv8)
    ensures Be32(((a as bv32) << 24) | ((b as bv32) << 16) | ((c as bv32) << 8) | (d as bv32)) == [a, b, c, d]
    ensures Le32(((a as bv32) << 24) | ((b as bv32) << 16) | ((c as bv32) << 8) | (d as bv32)) == [d, c, b, a]
  {
  }

  /** Encoding undoes decoding. */
  lemma Encode64(p: seq<bv8>)
    requires |p| == 8
    ensures Be64(Be64Dec(p)) == p && Le64(Le64Dec(p)) == p
  {
    Encode32(p[..4]);
    Encode32(p[4..]);
    Join(Be32Dec(p[..4]), Be32Dec(p[4..]));
    Join(Le32Dec(p[4..]), Le32Dec(p[..4]));
    assert p[..4] + p[4..] == p;
  }

  // ---- The two orders ----

  lemma SwapsUndo(x: bv16, y: bv32, z: bv64)
    ensures Bswap16(Bswap16(x)) == x && Bswap32(Bswap32(y)) == y && Bswap64(Bswap64(z)) == z
  {
  }

  lemma SwapHigh(h: bv32, l: bv32)
    ensures High(Bswap64(Combine(h, l))) == Bswap32(l)
  {
  }

  lemma SwapLow(h: bv32, l: bv32)
    ensures Low(Bswap64(Combine(h, l))) == Bswap32(h)
  {
  }

  lemma Swap64ByHalves(h: bv32, l: bv32)
    ensures Bswap64(Combine(h, l)) == Combine(Bswap32(l), Bswap32(h))
  {
    SwapHigh(h, l);
    SwapLow(h, l);
    Halves(Bswap64(Combine(h, l)));
  }

  lemma OrdersDiffer16(p: seq<bv8>)
    requires |p| == 2
    ensures Be16Dec(p) == Bswap16(Le16Dec(p))
  {
  }

  lemma OrdersDiffer32(p: seq<bv8>)
    requires |p| == 4
    ensures Be32Dec(p) == Bswap32(Le32Dec(p))
  {
  }

  /** Big-endian decoding is the swap of little-endian decoding. */
  lemma OrdersDiffer64(p: seq<bv8>)
    requires |p| == 8
    ensures Be64Dec(p) == Bswap64(Le64Dec(p))
  {
    OrdersDiffer32(p[..4]);
    OrdersDiffer32(p[4..]);
    Swap64ByHalves(Le32Dec(p[4..]), Le32Dec(p[..4]));
  }

  // ---- Which is which ----

  /** Big-endian is most significant byte first: a small value stands in the last byte, and shifting a
    * value left by a byte moves its bytes one place to the front. Little-endian is the mirror image. */
  lemma Significance16(b: bv8, u: bv16)
    ensures Be16(b as bv16) == [0, b] && Be16(u << 8) == Be16(u)[1..] + [0]
    ensures Le16(b as bv16) == [b, 0] && Le16(u << 8) == [0] + Le16(u)[..1]
  {
  }

  lemma Significance32(b: bv8, u: bv32)
    ensures Be32(b as bv32) == [0, 0, 0, b] && Be32(u << 8) == Be32(u)[1..] + [0]
    ensures Le32(b as bv32) == [b, 0, 0, 0] && Le32(u << 8) == [0] + Le32(u)[..3]
  {
  }

  lemma SmallHalves(b: bv8)
    ensures High(b as bv64) == 0 && Low(b as bv64) == b as bv32
  {
  }

  lemma ShiftedHalves(u: bv64)
    ensures High(u << 8) == (High(u) << 8) | (Low(u) >> 24) && Low(u << 8) == Low(u) << 8
  {
  }

  lemma CarriedByte(h: bv32, l: bv32)
    ensures Be32((h << 8) | (l >> 24)) == Be32(h)[1..] + Be32(l)[..1]
    ensures Le32((h << 8) | (l >> 24)) == Le32(l)[3..] + Le32(h)[..3]
  {
  }

  lemma Small64(b: bv8)
    ensures Be64(b as bv64) == [0, 0, 0, 0, 0, 0, 0, b] && Le64(b as bv64) == [b, 0, 0, 0, 0, 0, 0, 0]
  {
    SmallHalves(b);
    Significance32(0, 0);
    Significance32(b, 0);
  }

  /** Of two halves h and l, l is moved one place to the front. */
  lemma Moved(h: seq<bv8>, l: seq<bv8>, x: bv8)
    requires |h| == |l| == 4
    ensures (h[1..] + l[..1]) + (l[1..] + [x]) == (h + l)[1..] + [x]
    ensures ([x] + l[..3]) + (l[3..] + h[..3]) == [x] + (l + h)[..7]
  {
  }

  lemma Shifted64(u: bv64)
    ensures Be64(u << 8) == Be64(u)[1..] + [0] && Le64(u << 8) == [0] + Le64(u)[..7]
  {
    Significance32(0, Low(u));
    ShiftedHalves(u);
    CarriedByte(High(u), Low(u));
    Moved(Be32(High(u)), Be32(Low(u)), 0);
    Moved(Le32(High(u)), Le32(Low(u)), 0);
  }

  lemma Significance64(b: bv8, u: bv64)
    ensures Be64(b as bv64) == [0, 0, 0, 0, 0, 0, 0, b] && Be64(u << 8) == Be64(u)[1..] + [0]
    ensures Le64(b as bv64) == [b, 0, 0, 0, 0, 0, 0, 0] && Le64(u << 8) == [0] + Le64(u)[..7]
  {
    Small64(b);
    Shifted64(u);
  }
}
