/** One interrupt transfer from its start to its completion callback. */
module I2cProgress {
  import opened Memory
  import opened I2cBus
  import opened I2cDriver

  /** Where a transfer stands: `a` address commands refused and one unanswered, or the address
    * acknowledged after `k` refusals and `j` data commands issued. */
  datatype Position = Asking(a: nat) | Moving(k: nat, j: nat)

  /** Interrupts served since the start. */
  function Served(p: Position): nat {
    match p
    case Asking(a) => a
    case Moving(k, j) => k + j
  }

  ghost predicate Busy(d: Driver, r: Request) {
    && d.state == (if r.dir.Tx? then STATE_BUSY_TX_IT else STATE_BUSY_RX_IT)
    && d.ctr == EN | IEN
  }

  function Limit(s: Slave, o: Outcome, r: Request, k: nat): nat
    requires r.way.Interrupt? && Fits(r, |o.mem|)
  {
    Reach(s, Addressed(o, r, k), Data(r, o.mem), 1)
  }

  /** The driver is carrying out `r`, begun when bus, memory and stores were `o`. */
  ghost predicate Running(s: Slave, d: Driver, o: Outcome, r: Request, p: Position) {
    && r.way.Interrupt? && Fits(r, |o.mem|) && Busy(d, r)
    && match p {
      case Asking(a) =>
        && d.log == o.log + Repeat(Address(r), a + 1)
        && (forall i :: 1 <= i <= a ==> s(o.log + Repeat(Address(r), i)).nack)
        && d.mem == o.mem && d.stores == o.stores
        && (r.dir.Tx? ==> d.tx == Job(TX_ADDRESS, r.dev, r.ptr, r.size))
        && (r.dir.Rx? ==> d.rx == Job(RX_ADDRESS, r.dev, r.ptr, r.size))
      case Moving(k, j) =>
        var n, b, cs := Cells(r), Addressed(o, r, k), Data(r, o.mem);
        && AckAfter(s, o.log, Address(r), k)
        && 1 <= j <= Limit(s, o, r, k)
        && d.log == b + cs[..j]
        && (r.dir.Tx? ==>
              && d.tx == Job(if j == n then TX_END else TX_DATA, r.dev, r.ptr + j, n - j)
              && d.mem == o.mem && d.stores == o.stores)
        && (r.dir.Rx? ==>
              && d.rx == Job(RX_GET_DATA, r.dev, r.ptr + j - 1, n - j)
              && d.mem == Overwrite(o.mem, r.ptr, Received(s, b, cs, j - 1))
              && d.stores == o.stores + From(r.ptr, j - 1))
    }
  }

  /** The driver has carried out `r` and nothing more. */
  ghost predicate Finished(s: Slave, d: Driver, o: Outcome, r: Request, k: nat) {
    && Fits(r, |o.mem|) && AckAfter(s, o.log, Address(r), k)
    && d.state.STATE_READY? && d.ctr == EN
    && Now(d) == Whole(s, o, r, k)
  }

  /** Changing a data command that is not issued yet does not take a transfer past its limit. */
  lemma ReachKeeps(s: Slave, b: seq<Command>, cs: seq<Command>, ds: seq<Command>, j: nat)
    requires |cs| == |ds| && 1 <= j <= |cs| && cs[..j] == ds[..j] && j <= Reach(s, b, cs, 1)
    ensures j <= Reach(s, b, ds, 1)
  {
    var m := Reach(s, b, ds, 1);
    var n := if m < j then m else j;
    assert ds[..n] == ds[..j][..n] == cs[..n];
  }

  lemma DataKeeps(r: Request, mem: seq<bv8>, ptr: nat, value: bv8, j: nat)
    requires Fits(r, |mem|) && ptr < |mem| && j <= Cells(r)
    requires r.dir.Tx? ==> !(r.ptr <= ptr < r.ptr + j)
    ensures Data(r, mem[ptr := value])[..j] == Data(r, mem)[..j]
    ensures r.dir.Rx? ==> Data(r, mem[ptr := value]) == Data(r, mem)
  {
  }

  lemma OverwriteElsewhere<T>(mem: seq<T>, start: nat, bytes: seq<T>, ptr: nat, value: T)
    requires start + |bytes| <= |mem| && ptr < |mem| && !(start <= ptr < start + |bytes|)
    ensures Overwrite(mem, start, bytes)[ptr := value] == Overwrite(mem[ptr := value], start, bytes)
  {
  }

  /** A store to a cell that a transfer under way is not done with might as well have been made
    * before the transfer began, in its buffer or not. */
  lemma StoreWhileRunning(s: Slave, d: Driver, o: Outcome, r: Request, p: Position, ptr: nat, value: bv8)
    requires Running(s, d, o, r, p) && ptr < |d.mem| == |o.mem| && !(r.ptr <= ptr < DataPtr(d))
    ensures Running(s, d.(mem := d.mem[ptr := value]), o.(mem := o.mem[ptr := value]), r, p)
  {
    if p.Moving? {
      if r.dir.Tx? {
        StoreWhileSending(s, d, o, r, p.k, p.j, ptr, value);
      } else {
        StoreWhileReading(s, d, o, r, p.k, p.j, ptr, value);
      }
    }
  }

  lemma StoreWhileSending(s: Slave, d: Driver, o: Outcome, r: Request, k: nat, j: nat, ptr: nat, value: bv8)
    requires Running(s, d, o, r, Moving(k, j)) && r.dir.Tx?
    requires ptr < |d.mem| == |o.mem| && !(r.ptr <= ptr < r.ptr + j)
    ensures Running(s, d.(mem := d.mem[ptr := value]), o.(mem := o.mem[ptr := value]), r, Moving(k, j))
  {
    DataKeeps(r, o.mem, ptr, value, j);
    ReachKeeps(s, Addressed(o, r, k), Data(r, o.mem), Data(r, o.mem[ptr := value]), j);
  }

  lemma StoreWhileReading(s: Slave, d: Driver, o: Outcome, r: Request, k: nat, j: nat, ptr: nat, value: bv8)
    requires Running(s, d, o, r, Moving(k, j)) && r.dir.Rx?
    requires ptr < |d.mem| == |o.mem| && !(r.ptr <= ptr < r.ptr + j - 1)
    ensures Running(s, d.(mem := d.mem[ptr := value]), o.(mem := o.mem[ptr := value]), r, Moving(k, j))
  {
    var b, cs := Addressed(o, r, k), Data(r, o.mem);
    DataKeeps(r, o.mem, ptr, value, j);
    OverwriteElsewhere(o.mem, r.ptr, Received(s, b, cs, j - 1), ptr, value);
  }

  lemma ControlBits()
    ensures IntEnabled(EN) == EN | IEN && IntDisabled(EN | IEN) == EN
    ensures (EN | IEN) & IEN != 0 && EN & IEN == 0
  {
  }

  lemma StartRuns(s: Slave, d: Driver, r: Request)
    requires d.state.STATE_READY? && d.ctr == EN && r.way.Interrupt? && Fits(r, |d.mem|)
    ensures Running(s, Start(d, r), Now(d), r, Asking(0))
  {
    ControlBits();
    assert Repeat(Address(r), 1) == [Address(r)];
  }

  lemma AnswerToWrite(s: Slave, l: seq<Command>, c: Command)
    requires c.flags == STA | WR || c.flags == WR || c.flags == WR | STO
    ensures Nacked(s, l + [c]) == s(l + [c]).nack
  {
    ReadFlags();
  }

  lemma RepeatMore(l: seq<Command>, c: Command, n: nat)
    ensures l + Repeat(c, n) + [c] == l + Repeat(c, n + 1)
  {
  }

  lemma AskAnswer(s: Slave, d: Driver, o: Outcome, r: Request, a: nat)
    requires Running(s, d, o, r, Asking(a))
    ensures Nacked(s, d.log) == s(d.log).nack
  {
    var c := Address(r);
    RepeatMore(o.log, c, a);
    AnswerToWrite(s, o.log + Repeat(c, a), c);
  }

  /** The slave refused the address: it is sent again. */
  lemma AskAgain(s: Slave, d: Driver, o: Outcome, r: Request, a: nat)
    requires Running(s, d, o, r, Asking(a)) && s(d.log).nack
    ensures Inside(d) && Service(s, d).reports == d.reports
    ensures Running(s, Service(s, d), o, r, Asking(a + 1))
  {
    AskAnswer(s, d, o, r, a);
    var c, e := Address(r), Service(s, d);
    assert e.log == d.log + [c];
    RepeatMore(o.log, c, a + 1);
  }

  /** The slave took the address: the first byte is sent. */
  lemma SendFirst(s: Slave, d: Driver, o: Outcome, r: Request, a: nat)
    requires r.dir.Tx? && Running(s, d, o, r, Asking(a)) && !s(d.log).nack
    ensures Inside(d) && Service(s, d).reports == d.reports
    ensures Running(s, Service(s, d), o, r, Moving(a, 1))
  {
    AskAnswer(s, d, o, r, a);
    var b, cs := Addressed(o, r, a), Data(r, o.mem);
    FirstByte(s, o, r, b, cs);
    assert Service(s, d).log == b + [cs[0]];
  }

  /** The slave took the address: the first byte is requested. */
  lemma ReadFirst(s: Slave, d: Driver, o: Outcome, r: Request, a: nat)
    requires r.dir.Rx? && Running(s, d, o, r, Asking(a)) && !s(d.log).nack
    ensures Inside(d) && Service(s, d).reports == d.reports
    ensures Running(s, Service(s, d), o, r, Moving(a, 1))
  {
    AskAnswer(s, d, o, r, a);
    var b, cs := Addressed(o, r, a), Data(r, o.mem);
    FirstByte(s, o, r, b, cs);
    assert Txr(d.log) == Address(r).txr;
    assert Service(s, d).log == b + [cs[0]];
  }

  lemma FirstByte(s: Slave, o: Outcome, r: Request, b: seq<Command>, cs: seq<Command>)
    requires Fits(r, |o.mem|) && |cs| > 0
    ensures cs[..1] == [cs[0]]
    ensures Overwrite(o.mem, r.ptr, Received(s, b, cs, 0)) == o.mem
    ensures o.stores + From(r.ptr, 0) == o.stores
  {
  }

  lemma SendMore(s: Slave, d: Driver, o: Outcome, r: Request, k: nat, j: nat)
    requires r.dir.Tx? && Running(s, d, o, r, Moving(k, j)) && j < Limit(s, o, r, k)
    ensures Inside(d) && Service(s, d).reports == d.reports
    ensures Running(s, Service(s, d), o, r, Moving(k, j + 1))
  {
    var cs := Data(r, o.mem);
    assert cs[..j + 1] == cs[..j] + [cs[j]];
  }

  lemma SendLast(s: Slave, d: Driver, o: Outcome, r: Request, k: nat)
    requires r.dir.Tx? && r.way.Interrupt? && Fits(r, |o.mem|)
    requires Running(s, d, o, r, Moving(k, Limit(s, o, r, k)))
    ensures Inside(d) && Service(s, d).reports == d.reports + [Tx]
    ensures Finished(s, Service(s, d), o, r, k)
  {
    ControlBits();
  }

  /** A transmitted byte was answered. */
  lemma SendStep(s: Slave, d: Driver, o: Outcome, r: Request, k: nat, j: nat)
    requires r.dir.Tx? && Running(s, d, o, r, Moving(k, j))
    ensures Inside(d)
    ensures j < Limit(s, o, r, k) ==>
      Running(s, Service(s, d), o, r, Moving(k, j + 1)) && Service(s, d).reports == d.reports
    ensures j == Limit(s, o, r, k) ==>
      Finished(s, Service(s, d), o, r, k) && Service(s, d).reports == d.reports + [Tx]
  {
    if j < Limit(s, o, r, k) {
      SendMore(s, d, o, r, k, j);
    } else {
      SendLast(s, d, o, r, k);
    }
  }

  /** A requested byte is there to be stored; the master refused it if it is the last. */
  lemma ReadArrived(s: Slave, d: Driver, o: Outcome, r: Request, k: nat, j: nat)
    requires r.dir.Rx? && Running(s, d, o, r, Moving(k, j))
    ensures Inside(d) && Limit(s, o, r, k) == Cells(r)
    ensures Nacked(s, d.log) <==> j == Cells(r)
    ensures var e := RxStore(s, d);
      var b, cs := Addressed(o, r, k), Data(r, o.mem);
      && e.mem == Overwrite(o.mem, r.ptr, Received(s, b, cs, j))
      && e.stores == o.stores + From(r.ptr, j)
  {
    ReadFlags();
    ReceiveReachesAll(s, Addressed(o, r, k), r, o.mem);
    assert d.log[|d.log| - 1] == Data(r, o.mem)[j - 1];
  }

  lemma ReadMore(s: Slave, d: Driver, o: Outcome, r: Request, k: nat, j: nat)
    requires r.dir.Rx? && Running(s, d, o, r, Moving(k, j)) && j < Limit(s, o, r, k)
    ensures Inside(d) && Service(s, d).reports == d.reports
    ensures Running(s, Service(s, d), o, r, Moving(k, j + 1))
  {
    ReadArrived(s, d, o, r, k, j);
    var cs := Data(r, o.mem);
    assert cs[..j + 1] == cs[..j] + [cs[j]];
  }

  lemma ReadLast(s: Slave, d: Driver, o: Outcome, r: Request, k: nat)
    requires r.dir.Rx? && r.way.Interrupt? && Fits(r, |o.mem|)
    requires Running(s, d, o, r, Moving(k, Limit(s, o, r, k)))
    ensures Inside(d) && Service(s, d).reports == d.reports + [Rx]
    ensures Finished(s, Service(s, d), o, r, k)
  {
    ControlBits();
    ReadArrived(s, d, o, r, k, Limit(s, o, r, k));
  }

  /** A requested byte arrived. */
  lemma ReadStep(s: Slave, d: Driver, o: Outcome, r: Request, k: nat, j: nat)
    requires r.dir.Rx? && Running(s, d, o, r, Moving(k, j))
    ensures Inside(d)
    ensures j < Limit(s, o, r, k) ==>
      Running(s, Service(s, d), o, r, Moving(k, j + 1)) && Service(s, d).reports == d.reports
    ensures j == Limit(s, o, r, k) ==>
      Finished(s, Service(s, d), o, r, k) && Service(s, d).reports == d.reports + [Rx]
  {
    if j < Limit(s, o, r, k) {
      ReadMore(s, d, o, r, k, j);
    } else {
      ReadLast(s, d, o, r, k);
    }
  }
}
