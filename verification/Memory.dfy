/** Data memory and the 16-bit counters of the drivers. */
module Memory {

  type Byte = x: int | 0 <= x < 0x100
  type U16 = x: int | 0 <= x < 0x1_0000

  /** A uint16_t counter counted down; 0 wraps. */
  function Decrement(n: U16): U16 {
    if n == 0 then 0xFFFF else n - 1
  }

  /** How often a counter that starts at n must be counted down to be 0 again after the last
    * time: n times, or all the way round. */
  function Rounds(n: U16): nat {
    if n == 0 then 0x1_0000 else n
  }

  function Overwrite<T>(mem: seq<T>, ptr: nat, bytes: seq<T>): (r: seq<T>)
    requires ptr + |bytes| <= |mem|
    ensures |r| == |mem|
    ensures forall a :: 0 <= a < |mem| ==>
      r[a] == if ptr <= a < ptr + |bytes| then bytes[a - ptr] else mem[a]
  {
    mem[..ptr] + bytes + mem[ptr + |bytes|..]
  }

  /** `n` bytes of an input stream, from its byte number `from` on. */
  function Input(input: nat -> Byte, from: nat, n: nat): (bytes: seq<Byte>)
    ensures |bytes| == n
  {
    seq(n, i requires 0 <= i < n => input(from + i))
  }

  /** One more byte stored after `n`. */
  lemma InputMore(mem: seq<Byte>, input: nat -> Byte, from: nat, ptr: nat, n: nat)
    requires ptr + n < |mem|
    ensures Overwrite(mem, ptr, Input(input, from, n))[ptr + n := input(from + n)]
      == Overwrite(mem, ptr, Input(input, from, n + 1))
  {
  }

  /** The stretch from ptr on holds the first `m` bytes; the next `n` are stored behind them. */
  lemma InputStored(mem: seq<Byte>, input: nat -> Byte, from: nat, ptr: nat, m: nat, n: nat)
    requires ptr + m + n <= |mem| && mem[ptr..ptr + m] == Input(input, from, m)
    ensures Overwrite(mem, ptr + m, Input(input, from + m, n))[ptr..ptr + m + n] == Input(input, from, m + n)
  {
    var after := Overwrite(mem, ptr + m, Input(input, from + m, n));
    assert after[ptr..ptr + m] == mem[ptr..ptr + m];
    assert after[ptr + m..ptr + m + n] == Input(input, from + m, n);
    assert after[ptr..ptr + m + n] == after[ptr..ptr + m] + after[ptr + m..ptr + m + n];
  }

  lemma ByteStored(mem: seq<Byte>, input: nat -> Byte, from: nat, ptr: nat, m: nat)
    requires ptr + m < |mem| && mem[ptr..ptr + m] == Input(input, from, m)
    ensures mem[ptr + m := input(from + m)][ptr..ptr + m + 1] == Input(input, from, m + 1)
  {
    InputStored(mem, input, from, ptr, m, 1);
    assert mem[ptr + m := input(from + m)] == Overwrite(mem, ptr + m, Input(input, from + m, 1));
  }

  /** `m` cells from p on and `n` from q on have none in common. */
  predicate Apart(p: nat, m: nat, q: nat, n: nat) {
    m == 0 || n == 0 || p + m <= q || q + n <= p
  }

  lemma Chained<T>(a: seq<T>, b: seq<T>, c: seq<T>, d: seq<T>, e: seq<T>)
    requires a == b + c && d == a + e
    ensures d == b + (c + e)
  {
  }
}
