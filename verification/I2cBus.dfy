/** The I2C core as its master driver sees it: the command, status and control bits of
  * i2c_master.h, the bus history the driver writes, and what a transfer puts on the bus. */
module I2cBus {

  import opened Memory

  // Control register.
  const EN: bv8 := 0x80
  const IEN: bv8 := 0x40

  function IntEnabled(ctr: bv8): bv8 {
    ctr | IEN
  }

  function IntDisabled(ctr: bv8): bv8 {
    ctr & !IEN
  }

  // Command register.
  const STA: bv8 := 0x80
  const STO: bv8 := 0x40
  const RD: bv8 := 0x20
  const WR: bv8 := 0x10
  const ACK: bv8 := 0x08
  // Status register; the bit is set when the last byte was not acknowledged.
  const RXACK: bv8 := 0x80

  /** One command written to CSR, with the transmit register it took effect with. */
  datatype Command = Command(txr: bv8, flags: bv8)

  /** What the slave does with the newest command of a history. */
  datatype Answer = Answer(nack: bool, data: bv8)

  /** An arbitrary slave: its answer may depend on everything it has seen so far. */
  type Slave = seq<Command> -> Answer

  datatype Direction = Tx | Rx
  datatype Way = Blocking | Interrupt

  /** One call of the four transfer functions. */
  datatype Request = Request(way: Way, dir: Direction, dev: bv8, ptr: nat, size: U16)

  /** The transmit register: the byte of the newest command, 0 out of reset. */
  function Txr(log: seq<Command>): bv8 {
    if log == [] then 0 else log[|log| - 1].txr
  }

  /** RXACK after the newest command. After a read the master itself drove the acknowledge
    * bit, and the core samples that bit back. */
  predicate Nacked(s: Slave, log: seq<Command>) {
    if log == [] then false
    else
      var c := log[|log| - 1];
      if c.flags & RD != 0 then c.flags & ACK != 0 else s(log).nack
  }

  /** A status read. */
  function Status(s: Slave, log: seq<Command>): bv8 {
    if Nacked(s, log) then RXACK else 0
  }

  /** How many data bytes a request moves. An interrupt transfer counts Size down before it
    * is tested again, so Size 0 wraps and stands for 65536 bytes. */
  function Cells(r: Request): nat {
    if r.way.Interrupt? then Rounds(r.size) else r.size
  }

  predicate Fits(r: Request, limit: nat) {
    r.ptr + Cells(r) <= limit
  }

  /** The address byte: seven address bits and the R/W bit. */
  function WriteAddress(dev: bv8): bv8 {
    dev & 0xFE
  }

  function ReadAddress(dev: bv8): bv8 {
    dev | 0x01
  }

  function Address(r: Request): Command {
    Command(if r.dir.Tx? then WriteAddress(r.dev) else ReadAddress(r.dev), STA | WR)
  }

  function Repeat(c: Command, n: nat): (cs: seq<Command>)
    ensures |cs| == n
    ensures forall i :: 0 <= i < n ==> cs[i] == c
  {
    seq(n, i => c)
  }

  /** The data commands of a request over a memory. */
  function Data(r: Request, mem: seq<bv8>): (cs: seq<Command>)
    requires Fits(r, |mem|)
    ensures |cs| == Cells(r)
  {
    var n := Cells(r);
    seq(n, i requires 0 <= i < n =>
      if r.dir.Tx?
      then Command(mem[r.ptr + i], if i == n - 1 then WR | STO else WR)
      else Command(ReadAddress(r.dev), if i == n - 1 then RD | ACK else RD))
  }

  lemma DataAt(r: Request, mem: seq<bv8>, i: nat)
    requires Fits(r, |mem|) && i < Cells(r)
    ensures Data(r, mem)[i] ==
      if r.dir.Tx? then Command(mem[r.ptr + i], if i == Cells(r) - 1 then WR | STO else WR)
      else Command(ReadAddress(r.dev), if i == Cells(r) - 1 then RD | ACK else RD)
  {
  }

  /** The slave refuses the address command `c` exactly `k` times after history `l`. */
  ghost predicate AckAfter(s: Slave, l: seq<Command>, c: Command, k: nat) {
    && (forall j :: 1 <= j <= k ==> s(l + Repeat(c, j)).nack)
    && !s(l + Repeat(c, k + 1)).nack
  }

  ghost function Nacks(s: Slave, l: seq<Command>, c: Command): nat {
    if exists k: nat :: AckAfter(s, l, c, k) then var k: nat :| AckAfter(s, l, c, k); k else 0
  }

  lemma NacksIs(s: Slave, l: seq<Command>, c: Command, k: nat)
    requires AckAfter(s, l, c, k)
    ensures Nacks(s, l, c) == k
  {
    var n := Nacks(s, l, c);
    assert AckAfter(s, l, c, n);
    var atN, atK := Repeat(c, n + 1), Repeat(c, k + 1);
    assert s(l + atN).nack || s(l + atK).nack || n == k;
  }

  /** How many of the data commands `cs` an interrupt transfer issues, counting from `j` already
    * issued: it stops at the last one, or as soon as it sees one not acknowledged. */
  function Reach(s: Slave, b: seq<Command>, cs: seq<Command>, j: nat): (m: nat)
    requires 1 <= j <= |cs|
    ensures j <= m <= |cs|
    ensures m == |cs| || Nacked(s, b + cs[..m])
    ensures forall i :: j <= i < m ==> !Nacked(s, b + cs[..i])
    decreases |cs| - j
  {
    if j == |cs| || Nacked(s, b + cs[..j]) then j else Reach(s, b, cs, j + 1)
  }

  /** Bus history, memory, and the addresses stored to, in order. */
  datatype Outcome = Outcome(log: seq<Command>, mem: seq<bv8>, stores: seq<nat>)

  /** The bytes the slave supplies for the first `m` data commands. */
  function Received(s: Slave, b: seq<Command>, cs: seq<Command>, m: nat): (bytes: seq<bv8>)
    requires m <= |cs|
    ensures |bytes| == m
  {
    seq(m, i requires 0 <= i < m => s(b + cs[..i + 1]).data)
  }

  function From(ptr: nat, n: nat): (r: seq<nat>)
    ensures |r| == n
  {
    seq(n, i requires 0 <= i => ptr + i)
  }

  /** One more byte received after `m`. */
  lemma ReceivedMore(s: Slave, b: seq<Command>, cs: seq<Command>, mem: seq<bv8>, ptr: nat, m: nat)
    requires m < |cs| && ptr + |cs| <= |mem|
    ensures b + cs[..m + 1] == b + cs[..m] + [cs[m]]
    ensures Overwrite(mem, ptr, Received(s, b, cs, m + 1))
      == Overwrite(mem, ptr, Received(s, b, cs, m))[ptr + m := s(b + cs[..m + 1]).data]
    ensures From(ptr, m + 1) == From(ptr, m) + [ptr + m]
  {
  }

  /** History up to and including the acknowledged address command. */
  function Addressed(o: Outcome, r: Request, k: nat): seq<Command> {
    o.log + Repeat(Address(r), k + 1)
  }

  /** A transfer in one piece: address until acknowledged, data, and the stop condition (part
    * of the last data command on transmit, a command of its own on receive). The blocking
    * forms ignore the slave's answer to data; the interrupt transmit stops on a refusal. */
  function Whole(s: Slave, o: Outcome, r: Request, k: nat): Outcome
    requires Fits(r, |o.mem|)
  {
    var b := Addressed(o, r, k);
    var cs := Data(r, o.mem);
    var m := if r.way.Blocking? then |cs| else Reach(s, b, cs, 1);
    if r.dir.Tx? then
      Outcome(b + cs[..m], o.mem, o.stores)
    else
      Outcome(b + cs[..m] + [Command(ReadAddress(r.dev), STO)],
              Overwrite(o.mem, r.ptr, Received(s, b, cs, m)),
              o.stores + From(r.ptr, m))
  }

  /** The interrupt receive always reaches its last byte: the master acknowledges every
    * byte but that one, and RXACK echoes it. */
  lemma ReceiveReachesAll(s: Slave, b: seq<Command>, r: Request, mem: seq<bv8>)
    requires r.dir.Rx? && Fits(r, |mem|) && Cells(r) > 0
    ensures Reach(s, b, Data(r, mem), 1) == Cells(r)
  {
    var cs, m := Data(r, mem), Reach(s, b, Data(r, mem), 1);
    var log := b + cs[..m];
    assert log[|log| - 1] == cs[m - 1];
    ReadFlags();
  }

  lemma ReadFlags()
    ensures RD & RD != 0 && RD & ACK == 0
    ensures (RD | ACK) & RD != 0 && (RD | ACK) & ACK != 0
    ensures WR & RD == 0 && (WR | STO) & RD == 0 && (STA | WR) & RD == 0
  {
  }
}
