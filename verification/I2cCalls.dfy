/** What the calls of the driver do, bit by bit, and which of them are carried out. */
module I2cCalls {
  import opened Memory
  import opened I2cBus
  import opened I2cDriver
  import opened I2cProgress
  import opened I2cRuns

  // ---- One call ----

  /** The commands of a blocking transfer to a slave that refuses its address k times. */
  function Commands(r: Request, mem: seq<bv8>, k: nat): (cs: seq<Command>)
    requires r.ptr + r.size <= |mem|
    ensures |cs| == k + 1 + r.size + if r.dir.Rx? then 1 else 0
  {
    if r.dir.Tx? then
      seq(k + 1, i => Command(r.dev & 0xFE, 0x90))
      + seq(r.size, i requires 0 <= i < r.size => Command(mem[r.ptr + i], if i == r.size - 1 then 0x50 else 0x10))
    else
      seq(k + 1, i => Command(r.dev | 0x01, 0x90))
      + seq(r.size, i requires 0 <= i < r.size => Command(r.dev | 0x01, if i == r.size - 1 then 0x28 else 0x20))
      + [Command(r.dev | 0x01, 0x40)]
  }

  lemma FlagBits()
    ensures STA | WR == 0x90 && WR | STO == 0x50 && WR == 0x10
    ensures RD | ACK == 0x28 && RD == 0x20 && STO == 0x40
  {
  }

  lemma DataCommands(r: Request, mem: seq<bv8>, k: nat)
    requires r.way.Blocking? && Fits(r, |mem|)
    ensures Repeat(Address(r), k + 1) + Data(r, mem) == Commands(r, mem, k)[..k + 1 + r.size]
    ensures r.dir.Rx? ==> Commands(r, mem, k)[k + 1 + r.size] == Command(ReadAddress(r.dev), STO)
  {
    FlagBits();
    var head, ds, cs := Repeat(Address(r), k + 1), Data(r, mem), Commands(r, mem, k);
    forall i | 0 <= i < r.size
      ensures ds[i] == cs[k + 1 + i]
    {
      DataCommandAt(r, mem, k, i);
    }
    AddressIs(r);
    Front(head, ds, cs);
  }

  lemma DataCommandAt(r: Request, mem: seq<bv8>, k: nat, i: nat)
    requires r.way.Blocking? && Fits(r, |mem|) && i < r.size
    ensures Data(r, mem)[i] == Commands(r, mem, k)[k + 1 + i]
  {
    FlagBits();
    DataAt(r, mem, i);
  }

  lemma Front(a: seq<Command>, b: seq<Command>, c: seq<Command>)
    requires |a| + |b| <= |c|
    requires forall i :: 0 <= i < |a| ==> a[i] == c[i]
    requires forall i :: 0 <= i < |b| ==> b[i] == c[|a| + i]
    ensures a + b == c[..|a| + |b|]
  {
  }

  lemma WholeCommands(s: Slave, o: Outcome, r: Request, k: nat)
    requires r.way.Blocking? && Fits(r, |o.mem|)
    ensures Whole(s, o, r, k).log == o.log + Commands(r, o.mem, k)
  {
    var cs, ds := Commands(r, o.mem, k), Data(r, o.mem);
    DataCommands(r, o.mem, k);
    assert ds[..|ds|] == ds;
    assert Addressed(o, r, k) + ds == o.log + (Repeat(Address(r), k + 1) + ds);
    if r.dir.Rx? {
      assert cs == cs[..k + 1 + r.size] + [cs[k + 1 + r.size]];
      assert o.log + cs == o.log + cs[..k + 1 + r.size] + [cs[k + 1 + r.size]];
    } else {
      assert cs == cs[..k + 1 + r.size];
    }
  }

  /** What the slave supplies when it is asked for byte i. */
  function Supplied(s: Slave, log: seq<Command>, r: Request, mem: seq<bv8>, k: nat, i: nat): bv8
    requires r.ptr + r.size <= |mem| && i < r.size
  {
    s(log + Commands(r, mem, k)[..k + 2 + i]).data
  }

  lemma ReceivedAt(s: Slave, o: Outcome, r: Request, k: nat, i: nat)
    requires r.way.Blocking? && Fits(r, |o.mem|) && i < r.size
    ensures Received(s, Addressed(o, r, k), Data(r, o.mem), r.size)[i]
      == Supplied(s, o.log, r, o.mem, k, i)
  {
    var ds, cs := Data(r, o.mem), Commands(r, o.mem, k);
    DataCommands(r, o.mem, k);
    var both := Repeat(Address(r), k + 1) + ds;
    assert both[..k + 2 + i] == Repeat(Address(r), k + 1) + ds[..i + 1];
    assert cs[..k + 2 + i] == cs[..k + 1 + r.size][..k + 2 + i];
    assert Addressed(o, r, k) + ds[..i + 1] == o.log + cs[..k + 2 + i];
  }

  /** Memory after a blocking receive: every cell of the buffer holds what the slave supplied when it was
    * asked for it. */
  predicate Filled(s: Slave, log: seq<Command>, was: seq<bv8>, now: seq<bv8>, r: Request, k: nat)
    requires r.ptr + r.size <= |was|
  {
    && |now| == |was|
    && forall a :: 0 <= a < |was| ==>
         now[a] == if r.ptr <= a < r.ptr + r.size then Supplied(s, log, r, was, k, a - r.ptr) else was[a]
  }

  lemma FilledWhole(s: Slave, o: Outcome, r: Request, k: nat)
    requires r.way.Blocking? && r.dir.Rx? && Fits(r, |o.mem|)
    ensures Filled(s, o.log, o.mem, Whole(s, o, r, k).mem, r, k)
  {
    forall i | 0 <= i < r.size
      ensures Received(s, Addressed(o, r, k), Data(r, o.mem), r.size)[i] == Supplied(s, o.log, r, o.mem, k, i)
    {
      ReceivedAt(s, o, r, k, i);
    }
  }

  /** A blocking call on a ready driver: whatever the slave answers to data, exactly these commands are
    * issued, and the driver is ready again. */
  lemma BlockingCall(s: Slave, d: Driver, r: Request, k: nat) returns (e: Driver)
    requires d.state.STATE_READY? && r.way.Blocking? && Fits(r, |d.mem|) && AckAfter(s, d.log, Address(r), k)
    ensures Performable(s, d, Call(r)) && e == Perform(s, d, Call(r))
    ensures e == d.(log := d.log + Commands(r, d.mem, k), mem := e.mem, stores := e.stores,
                    iacks := d.iacks + 1, accepted := d.accepted + [Call(r)])
    ensures e.log == BlockingLog(s, d.log, r, d.mem, k + 1 + |Tail(r, d.mem)|)
    ensures r.dir.Tx? ==> e.mem == d.mem && e.stores == d.stores
    ensures r.dir.Rx? ==> Filled(s, d.log, d.mem, e.mem, r, k) && e.stores == d.stores + From(r.ptr, r.size)
  {
    var o := Now(d);
    NacksIs(s, d.log, Address(r), k);
    WholeCommands(s, o, r, k);
    BlockingWhole(s, o, r, k);
    if r.dir.Rx? {
      FilledWhole(s, o, r, k);
    }
    e := Perform(s, d, Call(r));
  }

  /** The same in the terms of the loops. */
  lemma PerformTx(s: Slave, d: Driver, r: Request, k: nat) returns (e: Driver)
    requires d.state.STATE_READY? && r.way.Blocking? && r.dir.Tx? && Fits(r, |d.mem|)
    requires AckAfter(s, d.log, Address(r), k)
    ensures e == Perform(s, d, Call(r))
    ensures e == d.(log := d.log + Repeat(Address(r), k + 1) + Data(r, d.mem),
                    iacks := d.iacks + 1, accepted := d.accepted + [Call(r)])
  {
    NacksIs(s, d.log, Address(r), k);
    var cs := Data(r, d.mem);
    assert cs[..|cs|] == cs;
    e := Perform(s, d, Call(r));
  }

  lemma PerformRx(s: Slave, d: Driver, r: Request, k: nat) returns (e: Driver)
    requires d.state.STATE_READY? && r.way.Blocking? && r.dir.Rx? && Fits(r, |d.mem|)
    requires AckAfter(s, d.log, Address(r), k)
    ensures e == Perform(s, d, Call(r))
    ensures var b := d.log + Repeat(Address(r), k + 1);
      e == d.(log := b + Data(r, d.mem) + [Command(ReadAddress(r.dev), STO)],
              mem := Overwrite(d.mem, r.ptr, Received(s, b, Data(r, d.mem), r.size)),
              stores := d.stores + From(r.ptr, r.size),
              iacks := d.iacks + 1, accepted := d.accepted + [Call(r)])
  {
    NacksIs(s, d.log, Address(r), k);
    var cs := Data(r, d.mem);
    assert cs[..|cs|] == cs;
    e := Perform(s, d, Call(r));
  }

  function Addressing(r: Request): Command {
    Command(if r.dir.Tx? then r.dev & 0xFE else r.dev | 0x01, 0x90)
  }

  lemma AddressIs(r: Request)
    ensures Address(r) == Addressing(r)
  {
    FlagBits();
  }

  /** What a blocking call on a ready driver leaves, for a slave that refuses its address some k times:
    * the commands of the whole transfer, one acknowledged interrupt flag, one call more accepted, on
    * receive the bytes supplied, and everything else as it was. */
  ghost predicate CarriedOut(s: Slave, d: Driver, r: Request, e: Driver)
    requires r.ptr + r.size <= |d.mem|
  {
    exists k: nat ::
      && AckAfter(s, d.log, Addressing(r), k)
      && e == d.(log := d.log + Commands(r, d.mem, k), mem := e.mem, stores := e.stores,
                 iacks := d.iacks + 1, accepted := d.accepted + [Call(r)])
      && (r.dir.Tx? ==> e.mem == d.mem && e.stores == d.stores)
      && (r.dir.Rx? ==> Filled(s, d.log, d.mem, e.mem, r, k) && e.stores == d.stores + From(r.ptr, r.size))
  }

  lemma BlockingCarriedOut(s: Slave, d: Driver, r: Request)
    requires d.state.STATE_READY? && r.way.Blocking? && Performable(s, d, Call(r))
    ensures CarriedOut(s, d, r, Perform(s, d, Call(r)))
  {
    var k: nat :| AckAfter(s, d.log, Address(r), k);
    AddressIs(r);
    var _ := BlockingCall(s, d, r, k);
  }

  lemma InterruptBit(ctr: bv8)
    ensures IntEnabled(ctr) == ctr | 0x40
  {
  }

  lemma StartTx(d: Driver, r: Request) returns (e: Driver)
    requires r.dir.Tx?
    ensures e == Start(d, r)
    ensures e == d.(state := STATE_BUSY_TX_IT, tx := Job(TX_ADDRESS, r.dev, r.ptr, r.size), ctr := d.ctr | 0x40,
                    log := d.log + [Command(r.dev & 0xFE, 0x90)], accepted := d.accepted + [Call(r)])
  {
    FlagBits();
    InterruptBit(d.ctr);
    var c := Command(WriteAddress(r.dev), STA | WR);
    e := d.(state := STATE_BUSY_TX_IT, tx := Job(TX_ADDRESS, r.dev, r.ptr, r.size), ctr := IntEnabled(d.ctr),
            log := d.log + [c], accepted := d.accepted + [Call(r)]);
  }

  lemma StartRx(d: Driver, r: Request) returns (e: Driver)
    requires r.dir.Rx?
    ensures e == Start(d, r)
    ensures e == d.(state := STATE_BUSY_RX_IT, rx := Job(RX_ADDRESS, r.dev, r.ptr, r.size), ctr := d.ctr | 0x40,
                    log := d.log + [Command(r.dev | 0x01, 0x90)], accepted := d.accepted + [Call(r)])
  {
    FlagBits();
    InterruptBit(d.ctr);
    var c := Command(ReadAddress(r.dev), STA | WR);
    e := d.(state := STATE_BUSY_RX_IT, rx := Job(RX_ADDRESS, r.dev, r.ptr, r.size), ctr := IntEnabled(d.ctr),
            log := d.log + [c], accepted := d.accepted + [Call(r)]);
  }

  /** An interrupt call on a ready driver: the interrupt of the core is enabled, the handle describes the
    * transfer, and the address is on the bus. */
  lemma InterruptCall(s: Slave, d: Driver, r: Request) returns (e: Driver)
    requires d.state.STATE_READY? && r.way.Interrupt? && Fits(r, |d.mem|)
    ensures Performable(s, d, Call(r)) && e == Perform(s, d, Call(r)) == Start(d, r)
    ensures e == if r.dir.Tx?
      then d.(state := STATE_BUSY_TX_IT, tx := Job(TX_ADDRESS, r.dev, r.ptr, r.size), ctr := d.ctr | 0x40,
              log := d.log + [Command(r.dev & 0xFE, 0x90)], accepted := d.accepted + [Call(r)])
      else d.(state := STATE_BUSY_RX_IT, rx := Job(RX_ADDRESS, r.dev, r.ptr, r.size), ctr := d.ctr | 0x40,
              log := d.log + [Command(r.dev | 0x01, 0x90)], accepted := d.accepted + [Call(r)])
  {
    if r.dir.Tx? {
      e := StartTx(d, r);
    } else {
      e := StartRx(d, r);
    }
  }

  /** Any call on a driver that is not ready has no effect at all. */
  lemma RefusedCall(s: Slave, d: Driver, r: Request)
    requires !d.state.STATE_READY?
    ensures Performable(s, d, Call(r)) && Perform(s, d, Call(r)) == d
  {
  }

  // ---- Which calls are carried out ----

  function CallsOf(actions: seq<Action>): (calls: seq<Action>)
    decreases |actions|
  {
    if actions == [] then []
    else OnlyCall(actions[0]) + CallsOf(actions[1..])
  }

  function OnlyCall(a: Action): seq<Action> {
    if a.Call? then [a] else []
  }

  function BlockingOf(actions: seq<Action>): nat
    decreases |actions|
  {
    if actions == [] then 0
    else (if actions[0].Call? && actions[0].r.way.Blocking? then 1 else 0) + BlockingOf(actions[1..])
  }

  /** Of the actions made on a driver: the stores, and the calls that find it ready. */
  ghost function Effective(s: Slave, d: Driver, actions: seq<Action>): seq<Action>
    requires AllPerformable(s, d, actions)
    decreases |actions|
  {
    if actions == [] then []
    else
      (if actions[0].Call? && d.state != STATE_READY then [] else [actions[0]])
      + Effective(s, Perform(s, d, actions[0]), actions[1..])
  }

  /** The same of a run: those of the program, and those of the callback of each transfer that ends. */
  ghost function EffectiveOf(s: Slave, d: Driver, e: Event): seq<Action>
    requires Possible(s, d, e)
  {
    match e
    case App(a) => if a.Call? && d.state != STATE_READY then [] else [a]
    case Irq(callback) => if Completes(s, d) then Effective(s, Service(s, d), callback) else []
  }

  ghost function EffectiveIn(s: Slave, d: Driver, es: seq<Event>): seq<Action>
    requires PossibleRun(s, d, es)
    decreases |es|
  {
    if es == [] then [] else EffectiveOf(s, d, es[0]) + EffectiveIn(s, Take(s, d, es[0]), es[1..])
  }

  function Irqs(es: seq<Event>): nat
    decreases |es|
  {
    if es == [] then 0 else (if es[0].Irq? then 1 else 0) + Irqs(es[1..])
  }

  /** Between d and e exactly `made` was recorded, the calls in order, and `irqs` interrupts were
    * acknowledged beside those of the blocking calls. */
  predicate Records(d: Driver, e: Driver, made: seq<Action>, irqs: nat) {
    && CallsOf(e.accepted) == CallsOf(d.accepted) + CallsOf(made)
    && multiset(e.accepted) == multiset(d.accepted) + multiset(made)
    && e.iacks == d.iacks + irqs + BlockingOf(made)
  }

  lemma CallsNext(actions: seq<Action>, rest: seq<Action>)
    requires actions != [] && rest == CallsOf(actions[1..])
    ensures CallsOf(actions) == OnlyCall(actions[0]) + rest
  {
  }

  lemma {:induction false} CallsAdd(a: seq<Action>, b: seq<Action>) returns (x: seq<Action>, y: seq<Action>)
    ensures x == CallsOf(a) && y == CallsOf(b) && CallsOf(a + b) == x + y
    decreases |a|
  {
    if a == [] {
      assert a + b == b;
      x, y := [], CallsOf(b);
    } else {
      assert (a + b)[1..] == a[1..] + b && (a + b)[0] == a[0];
      x, y := CallsAdd(a[1..], b);
      CallsNext(a, x);
      CallsNext(a + b, x + y);
      x := OnlyCall(a[0]) + x;
    }
  }

  lemma {:induction false} BlockingAdds(a: seq<Action>, b: seq<Action>)
    ensures BlockingOf(a + b) == BlockingOf(a) + BlockingOf(b)
    decreases |a|
  {
    if a == [] {
      assert a + b == b;
    } else {
      assert (a + b)[1..] == a[1..] + b && (a + b)[0] == a[0];
      BlockingAdds(a[1..], b);
    }
  }

  lemma OneCall(a: Action)
    ensures CallsOf([a]) == OnlyCall(a)
    ensures BlockingOf([a]) == if a.Call? && a.r.way.Blocking? then 1 else 0
  {
    assert [a][1..] == [];
  }

  lemma Sums(d: seq<Action>, e: seq<Action>, f: seq<Action>, a: seq<Action>, b: seq<Action>)
    requires multiset(e) == multiset(d) + multiset(a) && multiset(f) == multiset(e) + multiset(b)
    ensures multiset(f) == multiset(d) + multiset(a + b)
  {
  }

  lemma RecordsBoth(d: Driver, e: Driver, f: Driver, a: seq<Action>, b: seq<Action>, i: nat, j: nat)
    requires Records(d, e, a, i) && Records(e, f, b, j)
    ensures Records(d, f, a + b, i + j)
  {
    var _, _ := CallsAdd(a, b);
    BlockingAdds(a, b);
    Sums(d.accepted, e.accepted, f.accepted, a, b);
    Chained(CallsOf(e.accepted), CallsOf(d.accepted), CallsOf(a), CallsOf(f.accepted), CallsOf(b));
  }

  lemma OneMore(before: seq<Action>, p: Action, after: seq<Action>)
    ensures multiset(before + [p] + after) == multiset(before + after) + multiset([p])
  {
  }

  lemma Inserted(before: seq<Action>, p: Action, after: seq<Action>)
    requires p.Poke?
    ensures CallsOf(before + [p] + after) == CallsOf(before + after)
  {
    OneCall(p);
    var x, y := CallsAdd(before, [p]);
    assert x + y == x;
    var u, v := CallsAdd(before + [p], after);
    assert u == x;
    var _, _ := CallsAdd(before, after);
  }

  lemma RecordsInserted(d: Driver, e: Driver, before: seq<Action>, p: Action, after: seq<Action>)
    requires p.Poke? && d.accepted == before + after && e.accepted == before + [p] + after && e.iacks == d.iacks
    ensures Records(d, e, [p], 0)
  {
    OneCall(p);
    Inserted(before, p, after);
    OneMore(before, p, after);
  }

  lemma StoreRecords(d: Driver, ptr: nat, value: bv8)
    requires ptr < |d.mem|
    ensures Store(d, ptr, value).mem == d.mem[ptr := value]
    ensures Records(d, Store(d, ptr, value), [Poke(ptr, value)], 0)
  {
    var n, e := Place(d, ptr), Store(d, ptr, value);
    assert d.accepted == d.accepted[..n] + d.accepted[n..];
    RecordsInserted(d, e, d.accepted[..n], Poke(ptr, value), d.accepted[n..]);
  }

  lemma PerformRecords(s: Slave, d: Driver, a: Action) returns (e: Driver)
    requires Performable(s, d, a)
    ensures e == Perform(s, d, a)
    ensures Records(d, e, if a.Call? && d.state != STATE_READY then [] else [a], 0)
  {
    e := Perform(s, d, a);
    match a
    case Poke(ptr, value) => StoreRecords(d, ptr, value);
    case Call(r) =>
      OneCall(a);
      var _, _ := CallsAdd(d.accepted, [a]);
  }

  lemma {:induction false} PerformAllRecords(s: Slave, d: Driver, actions: seq<Action>) returns (e: Driver)
    requires AllPerformable(s, d, actions)
    ensures e == PerformAll(s, d, actions) && Records(d, e, Effective(s, d, actions), 0)
    decreases |actions|
  {
    e := d;
    if actions != [] {
      var m := PerformRecords(s, d, actions[0]);
      e := PerformAllRecords(s, m, actions[1..]);
      RecordsBoth(d, m, e, if actions[0].Call? && d.state != STATE_READY then [] else [actions[0]],
                  Effective(s, m, actions[1..]), 0, 0);
    }
  }

  lemma StepKeepsRecord(s: Slave, d: Driver)
    ensures TxInside(d) ==> TxStep(s, d).accepted == d.accepted && TxStep(s, d).iacks == d.iacks
    ensures RxInside(d) ==> RxStep(s, d).accepted == d.accepted && RxStep(s, d).iacks == d.iacks
  {
  }

  lemma ServiceRecords(s: Slave, d: Driver) returns (e: Driver)
    requires Inside(d)
    ensures e == Service(s, d) && Records(d, e, [], 1)
  {
    StepKeepsRecord(s, Acked(d));
    e := Service(s, d);
  }

  lemma TakeRecords(s: Slave, d: Driver, e: Event) returns (f: Driver)
    requires Possible(s, d, e)
    ensures f == Take(s, d, e) && Records(d, f, EffectiveOf(s, d, e), if e.Irq? then 1 else 0)
  {
    match e
    case App(a) => f := PerformRecords(s, d, a);
    case Irq(callback) =>
      f := ServiceRecords(s, d);
      if Completes(s, d) {
        var m := f;
        f := PerformAllRecords(s, m, callback);
        RecordsBoth(d, m, f, [], Effective(s, m, callback), 1, 0);
        assert [] + Effective(s, m, callback) == Effective(s, m, callback);
      }
  }

  /** Over any run, what is accepted is every store, and every call that finds the driver ready, of the
    * program and of the callback of each transfer that ends, the calls in the order in which they were
    * made; and the interrupt flag is cleared once for each interrupt and once for each accepted blocking
    * call. */
  lemma {:induction false} RunRecords(s: Slave, d: Driver, es: seq<Event>) returns (e: Driver)
    requires PossibleRun(s, d, es)
    ensures e == Run(s, d, es) && Records(d, e, EffectiveIn(s, d, es), Irqs(es))
    decreases |es|
  {
    e := d;
    if es != [] {
      var m := TakeRecords(s, d, es[0]);
      e := RunRecords(s, m, es[1..]);
      RecordsBoth(d, m, e, EffectiveOf(s, d, es[0]), EffectiveIn(s, m, es[1..]),
                  if es[0].Irq? then 1 else 0, Irqs(es[1..]));
    }
  }

  /** What a completion callback does first is carried out: the driver is ready by then. */
  lemma CallbackAccepted(s: Slave, d: Driver, callback: seq<Action>)
    requires Possible(s, d, Irq(callback)) && Completes(s, d) && callback != []
    requires Service(s, d).state.STATE_READY?
    ensures EffectiveOf(s, d, Irq(callback)) != [] && EffectiveOf(s, d, Irq(callback))[0] == callback[0]
  {
  }
}
