/** What a whole transfer looks like on the wire, bit by bit (sections 3.1.4, 3.1.6 and 3.1.10 of
  * NXP UM10204). */
module I2cWire {
  import opened I2cBus
  import opened I2cDriver
  import opened I2cProgress
  import opened I2cRuns

  predicate Has(c: Command, bit: bv8) {
    c.flags & bit != 0
  }

  /** A start condition and the address byte with its R/W bit. */
  predicate IsAddress(c: Command, r: Request) {
    && Has(c, STA) && Has(c, WR) && !Has(c, STO) && !Has(c, RD)
    && c.txr >> 1 == r.dev >> 1
    && (c.txr & 1 == if r.dir.Rx? then 1 else 0)
  }

  /** A byte sent; `stop`: followed by a stop condition. */
  predicate IsSend(c: Command, byte: bv8, stop: bool) {
    && Has(c, WR) && !Has(c, STA) && !Has(c, RD) && c.txr == byte
    && Has(c, STO) == stop
  }

  /** A byte read; `nack`: the master refuses more. */
  predicate IsRead(c: Command, nack: bool) {
    && Has(c, RD) && !Has(c, STA) && !Has(c, WR) && !Has(c, STO)
    && Has(c, ACK) == nack
  }

  predicate IsStop(c: Command) {
    Has(c, STO) && !Has(c, STA) && !Has(c, RD) && !Has(c, WR)
  }

  lemma AddressBits(r: Request)
    ensures IsAddress(Address(r), r)
  {
  }

  lemma DataBits(byte: bv8)
    ensures IsSend(Command(byte, WR), byte, false) && IsSend(Command(byte, WR | STO), byte, true)
    ensures IsRead(Command(byte, RD), false) && IsRead(Command(byte, RD | ACK), true)
    ensures IsStop(Command(byte, STO))
  {
  }

  /** Is `c` the data command for byte i of the request? */
  predicate IsData(c: Command, r: Request, mem: seq<bv8>, i: nat)
    requires Fits(r, |mem|) && i < Cells(r)
  {
    if r.dir.Tx? then IsSend(c, mem[r.ptr + i], i == Cells(r) - 1) else IsRead(c, i == Cells(r) - 1)
  }

  lemma DataFormat(r: Request, mem: seq<bv8>, i: nat)
    requires Fits(r, |mem|) && i < Cells(r)
    ensures IsData(Data(r, mem)[i], r, mem, i)
  {
    DataBits(Data(r, mem)[i].txr);
  }

  lemma WholeParts(s: Slave, o: Outcome, r: Request, k: nat) returns (m: nat)
    requires Fits(r, |o.mem|)
    ensures m == (if r.way.Interrupt? then Limit(s, o, r, k) else Cells(r)) && m <= Cells(r)
    ensures var w := Whole(s, o, r, k).log;
      && |w| == |o.log| + k + 1 + m + (if r.dir.Rx? then 1 else 0)
      && w[..|o.log|] == o.log
      && (forall i :: |o.log| <= i <= |o.log| + k ==> w[i] == Address(r))
      && (forall i :: |o.log| + k < i <= |o.log| + k + m ==> w[i] == Data(r, o.mem)[i - |o.log| - k - 1])
      && (r.dir.Rx? ==> w[|w| - 1] == Command(ReadAddress(r.dev), STO))
  {
    m := if r.way.Interrupt? then Limit(s, o, r, k) else Cells(r);
  }

  /** A transfer adds k + 1 address commands, then one data command for each byte it reaches,
    * then, on receive, a stop. Only the very last byte of the request is sent with the stop
    * condition, or refused by the master. */
  lemma WireFormat(s: Slave, o: Outcome, r: Request, k: nat)
    requires Fits(r, |o.mem|)
    ensures var w := Whole(s, o, r, k).log;
      var m := if r.way.Interrupt? then Limit(s, o, r, k) else Cells(r);
      && |w| == |o.log| + k + 1 + m + (if r.dir.Rx? then 1 else 0)
      && w[..|o.log|] == o.log
      && (forall i :: |o.log| <= i <= |o.log| + k ==> IsAddress(w[i], r))
      && (forall i :: |o.log| + k < i <= |o.log| + k + m ==> IsData(w[i], r, o.mem, i - |o.log| - k - 1))
      && (r.dir.Rx? ==> IsStop(w[|w| - 1]))
  {
    AddressBits(r);
    DataBits(ReadAddress(r.dev));
    var m := WholeParts(s, o, r, k);
    var w := Whole(s, o, r, k).log;
    forall i | |o.log| + k < i <= |o.log| + k + m
      ensures IsData(w[i], r, o.mem, i - |o.log| - k - 1)
    {
      DataFormat(r, o.mem, i - |o.log| - k - 1);
    }
  }

  /** The last byte of the request is sent. */
  ghost predicate LastSent(s: Slave, o: Outcome, r: Request, k: nat)
    requires Fits(r, |o.mem|)
  {
    if r.way.Interrupt? then DataTaken(s, o, r, k) else r.size != 0
  }

  /** A receive always releases the bus by a stop condition. A transmit does exactly when its last
    * byte is sent: an interrupt transmit cut short by the slave is reported complete without a
    * stop, and a blocking transmit of Size 0 addresses the slave and leaves it at that. */
  lemma ReleasedUnlessCutShort(s: Slave, o: Outcome, r: Request, k: nat)
    requires Fits(r, |o.mem|) && AckAfter(s, o.log, Address(r), k)
    ensures (exists i :: |o.log| <= i < |Whole(s, o, r, k).log| && Has(Whole(s, o, r, k).log[i], STO))
      <==> r.dir.Rx? || LastSent(s, o, r, k)
  {
    var w, at := Whole(s, o, r, k).log, |o.log| + k + 1;
    var m := WholeParts(s, o, r, k);
    WireFormat(s, o, r, k);
    if r.way.Interrupt? {
      LimitIsAll(s, o, r, k);
    }
    if r.dir.Tx? {
      forall i | at <= i < |w|
        ensures Has(w[i], STO) == (i - at == Cells(r) - 1)
      {
        assert IsData(w[i], r, o.mem, i - at);
      }
      assert m == Cells(r) > 0 ==> Has(w[at + m - 1], STO);
    } else {
      assert Has(w[|w| - 1], STO);
    }
  }

  // ---- Failing inputs ----

  /** A slave that takes its address and refuses the first data byte. */
  function RefusesFirst(): Slave {
    l => Answer(|l| == 2, 0)
  }

  /** Two bytes to it: reported complete after two interrupts, and never a stop condition. */
  lemma CutShortExample(d: Driver)
    requires Initial(d) && |d.mem| >= 2
    ensures var e := Serve(RefusesFirst(), Start(d, Request(Interrupt, Tx, 0xA0, 0, 2)), 2);
      && e.state.STATE_READY? && e.reports == [Tx]
      && forall i :: 0 <= i < |e.log| ==> !Has(e.log[i], STO)
  {
    var s, r, o := RefusesFirst(), Request(Interrupt, Tx, 0xA0, 0, 2), Now(d);
    assert |Addressed(o, r, 0) + Data(r, o.mem)[..1]| == 2;
    assert |o.log + Repeat(Address(r), 1)| == 1;
    LimitIsAll(s, o, r, 0);
    CompletionTime(s, d, r, 0, 2);
    ReleasedUnlessCutShort(s, o, r, 0);
  }

  /** Size 0 to a slave that takes everything: 65536 data bytes by interrupt, none by the blocking
    * form, which sends no stop condition either. */
  lemma SizeZeroExample(d: Driver)
    requires Initial(d) && |d.mem| >= 0x1_0000
    ensures var s, r := (l: seq<Command>) => Answer(false, 0), Request(Interrupt, Tx, 0xA0, 0, 0);
      && Finished(s, Serve(s, Start(d, r), 0x1_0001), Now(d), r, 0)
      && |Whole(s, Now(d), r, 0).log| == 1 + 0x1_0000
      && Whole(s, Now(d), Twin(r), 0).log == [Address(r)]
  {
    var s, r, o := (l: seq<Command>) => Answer(false, 0), Request(Interrupt, Tx, 0xA0, 0, 0), Now(d);
    LimitIsAll(s, o, r, 0);
    CompletionTime(s, d, r, 0, 0x1_0001);
    var m := WholeParts(s, o, r, 0);
  }
}
