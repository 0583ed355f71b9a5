/** Whole runs of the driver: interrupts, application calls and completion callbacks that start
  * further transfers, in any order and number. */
module I2cChain {
  import opened I2cBus
  import opened I2cDriver
  import opened I2cProgress
  import opened I2cRuns

  predicate ActionFits(a: Action, limit: nat) {
    match a
    case Poke(ptr, _) => ptr < limit
    case Call(r) => Fits(r, limit)
  }

  predicate AllFit(actions: seq<Action>, limit: nat) {
    forall i :: 0 <= i < |actions| ==> ActionFits(actions[i], limit)
  }

  /** One action in one piece. */
  ghost function Atomic(s: Slave, o: Outcome, a: Action): (w: Outcome)
    requires ActionFits(a, |o.mem|)
    ensures |w.mem| == |o.mem|
  {
    match a
    case Poke(ptr, value) => o.(mem := o.mem[ptr := value])
    case Call(r) => Whole(s, o, r, Nacks(s, o.log, Address(r)))
  }

  /** The simple form of a run: the accepted actions carried out one after another, each in one
    * piece, with no interrupts. */
  ghost function Serial(s: Slave, mem: seq<bv8>, actions: seq<Action>): (o: Outcome)
    requires AllFit(actions, |mem|)
    ensures |o.mem| == |mem|
    decreases |actions|
  {
    if actions == [] then Outcome([], mem, [])
    else Atomic(s, Serial(s, mem, actions[..|actions| - 1]), actions[|actions| - 1])
  }

  /** The interrupt transfers among some actions. */
  function Reported(actions: seq<Action>): seq<Direction>
    decreases |actions|
  {
    if actions == [] then []
    else
      var before, a := Reported(actions[..|actions| - 1]), actions[|actions| - 1];
      if a.Call? && a.r.way.Interrupt? then before + [a.r.dir] else before
  }

  // ---- Stores to cells a transfer is done with ----

  /** The stores in `late` all go to cells from lo to hi - 1. */
  predicate Within(late: seq<Action>, lo: nat, hi: nat) {
    forall i :: 0 <= i < |late| ==> late[i].Poke? && lo <= late[i].ptr < hi
  }

  function Poked(mem: seq<bv8>, late: seq<Action>): (m: seq<bv8>)
    requires Within(late, 0, |mem|)
    ensures |m| == |mem|
    decreases |late|
  {
    if late == [] then mem
    else
      var p := late[|late| - 1];
      Poked(mem, late[..|late| - 1])[p.ptr := p.value]
  }

  lemma {:induction false} PokedElsewhere(mem: seq<bv8>, late: seq<Action>, lo: nat, hi: nat, cell: nat)
    requires Within(late, lo, hi) && hi <= |mem| && cell < |mem| && !(lo <= cell < hi)
    ensures Poked(mem, late)[cell] == mem[cell]
    decreases |late|
  {
    if late != [] {
      PokedElsewhere(mem, late[..|late| - 1], lo, hi, cell);
    }
  }

  lemma {:induction false} PokedCommutes(
    mem: seq<bv8>, late: seq<Action>, lo: nat, hi: nat, cell: nat, value: bv8)
    requires Within(late, lo, hi) && hi <= |mem| && cell < |mem| && !(lo <= cell < hi)
    ensures Poked(mem[cell := value], late) == Poked(mem, late)[cell := value]
    decreases |late|
  {
    if late != [] {
      PokedCommutes(mem, late[..|late| - 1], lo, hi, cell, value);
    }
  }

  lemma Appended(actions: seq<Action>, a: Action)
    ensures (actions + [a])[..|actions + [a]| - 1] == actions
  {
  }

  /** One more action at the end. */
  lemma SerialNext(s: Slave, mem: seq<bv8>, actions: seq<Action>, a: Action) returns (all: seq<Action>)
    requires AllFit(actions, |mem|) && ActionFits(a, |mem|)
    ensures all == actions + [a] && AllFit(all, |mem|)
    ensures Serial(s, mem, all) == Atomic(s, Serial(s, mem, actions), a)
    ensures Reported(all) == Reported(actions) + if a.Call? && a.r.way.Interrupt? then [a.r.dir] else []
  {
    Appended(actions, a);
    all := actions + [a];
  }

  lemma Regroup<T>(a: seq<T>, b: seq<T>)
    requires b != []
    ensures a + b == (a + b[..|b| - 1]) + [b[|b| - 1]]
  {
  }

  /** Recorded after everything else, such stores are what they are in the serial form. */
  lemma {:induction false} SerialPokes(s: Slave, mem: seq<bv8>, actions: seq<Action>, late: seq<Action>)
    returns (all: seq<Action>, o: Outcome)
    requires AllFit(actions, |mem|) && Within(late, 0, |mem|)
    ensures all == actions + late && AllFit(all, |mem|) && o == Serial(s, mem, all)
    ensures var was := Serial(s, mem, actions);
      o == was.(mem := Poked(was.mem, late))
    ensures Reported(all) == Reported(actions)
    decreases |late|
  {
    if late == [] {
      all, o := actions, Serial(s, mem, actions);
    } else {
      all, o := SerialPokes(s, mem, actions, late[..|late| - 1]);
      all := SerialNext(s, mem, all, late[|late| - 1]);
      o := Serial(s, mem, all);
      Regroup(actions, late);
    }
  }

  // ---- The invariant ----

  /** What is known in the middle of a transfer: it was accepted after `before`, and `late` are the
    * stores made since then to cells it is done with; `base` is memory without them. */
  datatype Account = Account(before: seq<Action>, r: Request, late: seq<Action>, p: Position, base: seq<bv8>)

  predicate Recorded(mem: seq<bv8>, d: Driver, a: Account) {
    && d.accepted == a.before + [Call(a.r)] + a.late && AllFit(a.before, |mem|) && Fits(a.r, |mem|)
    && d.reports == Reported(a.before)
  }

  predicate Layered(mem: seq<bv8>, d: Driver, a: Account) {
    && |a.base| == |mem| && DataPtr(d) <= |mem| && Within(a.late, a.r.ptr, DataPtr(d))
    && d.mem == Poked(a.base, a.late)
  }

  ghost predicate Midway(s: Slave, mem: seq<bv8>, d: Driver, a: Account) {
    && Recorded(mem, d, a) && Layered(mem, d, a)
    && Running(s, d.(mem := a.base), Serial(s, mem, a.before), a.r, a.p)
  }

  /** Between transfers, bus and memory are what the serial form gives, and every accepted
    * interrupt transfer has been reported once. During a transfer, that holds of all that was
    * accepted before it. */
  ghost predicate Inv(s: Slave, mem: seq<bv8>, d: Driver) {
    if d.state.STATE_READY? then
      && AllFit(d.accepted, |mem|)
      && d.ctr == EN && Now(d) == Serial(s, mem, d.accepted) && d.reports == Reported(d.accepted)
    else
      exists a :: Midway(s, mem, d, a)
  }

  lemma InitialInv(s: Slave, d: Driver)
    requires Initial(d)
    ensures Inv(s, d.mem, d)
  {
  }

  /** The call found last is the one under way. */
  lemma {:induction false} LastCallIs(before: seq<Action>, c: Action, late: seq<Action>)
    requires c.Call? && forall i :: 0 <= i < |late| ==> late[i].Poke?
    ensures HasCall(before + [c] + late) && LastCall(before + [c] + late) == |before|
    decreases |late|
  {
    var all := before + [c] + late;
    assert all[|before|] == c;
    if late != [] {
      assert all[..|all| - 1] == before + [c] + late[..|late| - 1];
      LastCallIs(before, c, late[..|late| - 1]);
    }
  }

  /** A transfer does not depend on what is recorded. */
  lemma RunningFrame(s: Slave, d: Driver, e: Driver, o: Outcome, r: Request, p: Position)
    requires Running(s, d, o, r, p)
    requires e == d.(accepted := e.accepted, iacks := e.iacks, reports := e.reports)
    ensures Running(s, e, o, r, p)
  {
  }

  lemma MidwayPlace(s: Slave, mem: seq<bv8>, d: Driver, a: Account, ptr: nat)
    requires Midway(s, mem, d, a)
    ensures !d.state.STATE_READY?
    ensures Place(d, ptr) == if a.r.ptr <= ptr < DataPtr(d) then |d.accepted| else |a.before|
  {
    LastCallIs(a.before, Call(a.r), a.late);
    assert d.accepted[|a.before|] == Call(a.r);
  }

  lemma LateLayer(mem: seq<bv8>, d: Driver, a: Account, ptr: nat, value: bv8)
    requires Layered(mem, d, a) && a.r.ptr <= ptr < DataPtr(d)
    ensures Layered(mem, d.(mem := d.mem[ptr := value]), a.(late := a.late + [Poke(ptr, value)]))
  {
    Appended(a.late, Poke(ptr, value));
  }

  /** A store while a transfer is under way, to a cell it is done with. */
  lemma LateStore(s: Slave, mem: seq<bv8>, d: Driver, a: Account, ptr: nat, value: bv8)
    returns (e: Driver, c: Account)
    requires Midway(s, mem, d, a) && a.r.ptr <= ptr < DataPtr(d)
    ensures ptr < |d.mem| && e == Store(d, ptr, value) && e.state == d.state && Midway(s, mem, e, c)
  {
    MidwayPlace(s, mem, d, a, ptr);
    LateLayer(mem, d, a, ptr, value);
    e, c := Store(d, ptr, value), a.(late := a.late + [Poke(ptr, value)]);
    RunningFrame(s, d.(mem := a.base), e.(mem := a.base), Serial(s, mem, a.before), a.r, a.p);
    assert e.accepted == a.before + [Call(a.r)] + c.late;
  }

  lemma EarlyLayer(mem: seq<bv8>, d: Driver, a: Account, ptr: nat, value: bv8)
    requires Layered(mem, d, a) && ptr < |mem| && !(a.r.ptr <= ptr < DataPtr(d))
    ensures Layered(mem, d.(mem := d.mem[ptr := value]), a.(base := a.base[ptr := value]))
  {
    PokedCommutes(a.base, a.late, a.r.ptr, DataPtr(d), ptr, value);
  }

  lemma SerialPoke(s: Slave, mem: seq<bv8>, before: seq<Action>, ptr: nat, value: bv8)
    requires AllFit(before, |mem|) && ptr < |mem|
    ensures AllFit(before + [Poke(ptr, value)], |mem|)
    ensures var o := Serial(s, mem, before);
      Serial(s, mem, before + [Poke(ptr, value)]) == o.(mem := o.mem[ptr := value])
    ensures Reported(before + [Poke(ptr, value)]) == Reported(before)
  {
    var _ := SerialNext(s, mem, before, Poke(ptr, value));
  }

  lemma EarlyRunning(s: Slave, mem: seq<bv8>, d: Driver, a: Account, ptr: nat, value: bv8)
    returns (base: seq<bv8>, o: Outcome)
    requires Midway(s, mem, d, a) && ptr < |mem| && !(a.r.ptr <= ptr < DataPtr(d))
    ensures base == a.base[ptr := value] && AllFit(a.before + [Poke(ptr, value)], |mem|)
    ensures o == Serial(s, mem, a.before + [Poke(ptr, value)])
    ensures Running(s, d.(mem := base), o, a.r, a.p)
  {
    SerialPoke(s, mem, a.before, ptr, value);
    var was := Serial(s, mem, a.before);
    StoreWhileRunning(s, d.(mem := a.base), was, a.r, a.p, ptr, value);
    base, o := a.base[ptr := value], was.(mem := was.mem[ptr := value]);
  }

  lemma Inserted<T>(before: seq<T>, c: T, late: seq<T>, x: T)
    ensures var all := before + [c] + late;
      all[..|before|] + [x] + all[|before|..] == before + [x] + [c] + late
  {
  }

  lemma EarlyRecorded(s: Slave, mem: seq<bv8>, d: Driver, a: Account, ptr: nat, value: bv8) returns (e: Driver)
    requires Midway(s, mem, d, a) && ptr < |mem| && !(a.r.ptr <= ptr < DataPtr(d))
    ensures ptr < |d.mem| && e == Store(d, ptr, value)
    ensures e == d.(mem := d.mem[ptr := value], accepted := e.accepted)
    ensures Recorded(mem, e, a.(before := a.before + [Poke(ptr, value)]))
  {
    MidwayPlace(s, mem, d, a, ptr);
    SerialPoke(s, mem, a.before, ptr, value);
    Inserted(a.before, Call(a.r), a.late, Poke(ptr, value));
    e := Store(d, ptr, value);
  }

  /** A store while a transfer is under way, to any other cell. */
  lemma EarlyStore(s: Slave, mem: seq<bv8>, d: Driver, a: Account, ptr: nat, value: bv8)
    returns (e: Driver, c: Account)
    requires Midway(s, mem, d, a) && ptr < |mem| && !(a.r.ptr <= ptr < DataPtr(d))
    ensures ptr < |d.mem| && e == Store(d, ptr, value) && e.state == d.state && Midway(s, mem, e, c)
  {
    e := EarlyRecorded(s, mem, d, a, ptr, value);
    EarlyLayer(mem, d, a, ptr, value);
    var base, o := EarlyRunning(s, mem, d, a, ptr, value);
    c := a.(before := a.before + [Poke(ptr, value)], base := base);
    RunningFrame(s, d.(mem := base), e.(mem := base), o, a.r, a.p);
  }

  // Those stores do not get in the way of the next interrupt: it reads or writes the cell behind.

  lemma SendLayer(b: Driver, mem: seq<bv8>)
    requires b.tx.data < |mem| == |b.mem| && mem[b.tx.data] == b.mem[b.tx.data]
    ensures TxSend(b.(mem := mem)) == TxSend(b).(mem := mem)
    ensures TxSend(b).mem == b.mem && TxSend(b).tx.data == b.tx.data + 1 && TxSend(b).state == b.state
  {
  }

  lemma QuietLayer(b: Driver, mem: seq<bv8>)
    ensures TxAddress(b.(mem := mem)) == TxAddress(b).(mem := mem)
    ensures TxFinish(b.(mem := mem)) == TxFinish(b).(mem := mem)
    ensures RxAddress(b.(mem := mem)) == RxAddress(b).(mem := mem)
    ensures RxRead(b.(mem := mem)) == RxRead(b).(mem := mem)
  {
  }

  lemma FinishLayer(s: Slave, b: Driver, mem: seq<bv8>)
    requires b.rx.data < |mem| == |b.mem|
    ensures RxFinish(s, b.(mem := mem)) == RxFinish(s, b).(mem := mem[b.rx.data := s(b.log).data])
    ensures RxFinish(s, b).mem == b.mem[b.rx.data := s(b.log).data]
  {
  }

  lemma NextLayer(s: Slave, b: Driver, mem: seq<bv8>)
    requires b.rx.data < |mem| == |b.mem|
    ensures RxRead(RxAdvance(RxStore(s, b.(mem := mem))))
      == RxRead(RxAdvance(RxStore(s, b))).(mem := mem[b.rx.data := s(b.log).data])
    ensures RxRead(RxAdvance(RxStore(s, b))).mem == b.mem[b.rx.data := s(b.log).data]
  {
  }

  predicate SendsNext(s: Slave, b: Driver) {
    (b.tx.phase.TX_ADDRESS? || b.tx.phase.TX_DATA?) && !Nacked(s, b.log)
  }

  lemma TxSendsLayer(s: Slave, b: Driver, mem: seq<bv8>) returns (e: Driver)
    requires SendsNext(s, b) && b.tx.data < |mem| == |b.mem| && mem[b.tx.data] == b.mem[b.tx.data]
    ensures e == TxStep(s, b) && TxStep(s, b.(mem := mem)) == e.(mem := mem) && e.mem == b.mem
    ensures b.tx.data <= e.tx.data && e.state == b.state
  {
    SendLayer(b, mem);
    e := TxSend(b);
  }

  lemma TxQuietLayer(s: Slave, b: Driver, mem: seq<bv8>) returns (e: Driver)
    requires TxInside(b) && |mem| == |b.mem| && !SendsNext(s, b)
    ensures e == TxStep(s, b) && TxStep(s, b.(mem := mem)) == e.(mem := mem) && e.mem == b.mem
    ensures b.tx.data == e.tx.data && (e.state.STATE_READY? || e.state == b.state)
  {
    QuietLayer(b, mem);
    e := if b.tx.phase.TX_READY? || b.tx.phase.TX_ADDRESS? then TxAddress(b) else TxFinish(b);
  }

  lemma TxStepLayer(s: Slave, b: Driver, mem: seq<bv8>) returns (e: Driver)
    requires TxInside(b) && |mem| == |b.mem| && (b.tx.data < |mem| ==> mem[b.tx.data] == b.mem[b.tx.data])
    ensures e == TxStep(s, b) && TxStep(s, b.(mem := mem)) == e.(mem := mem) && e.mem == b.mem
    ensures b.tx.data <= e.tx.data && (e.state.STATE_READY? || e.state == b.state)
  {
    if SendsNext(s, b) {
      e := TxSendsLayer(s, b, mem);
    } else {
      e := TxQuietLayer(s, b, mem);
    }
  }

  predicate StoresNext(b: Driver) {
    b.rx.phase.RX_GET_DATA? || b.rx.phase.RX_END?
  }

  lemma RxStoresLayer(s: Slave, b: Driver, mem: seq<bv8>) returns (e: Driver)
    requires RxInside(b) && |mem| == |b.mem| && StoresNext(b)
    ensures e == RxStep(s, b) && RxStep(s, b.(mem := mem)) == e.(mem := mem[b.rx.data := s(b.log).data])
    ensures e.mem == b.mem[b.rx.data := s(b.log).data]
    ensures b.rx.data <= e.rx.data && (e.state.STATE_READY? || e.state == b.state)
  {
    if b.rx.phase.RX_END? || Nacked(s, b.log) {
      FinishLayer(s, b, mem);
      e := RxFinish(s, b);
    } else {
      NextLayer(s, b, mem);
      e := RxRead(RxAdvance(RxStore(s, b)));
    }
  }

  lemma RxQuietLayer(s: Slave, b: Driver, mem: seq<bv8>) returns (e: Driver)
    requires RxInside(b) && |mem| == |b.mem| && !StoresNext(b)
    ensures e == RxStep(s, b) && RxStep(s, b.(mem := mem)) == e.(mem := mem) && e.mem == b.mem
    ensures b.rx.data == e.rx.data && e.state == b.state
  {
    QuietLayer(b, mem);
    e := if b.rx.phase.RX_DATA? || (b.rx.phase.RX_ADDRESS? && !Nacked(s, b.log)) then RxRead(b) else RxAddress(b);
  }

  lemma TxLayers(s: Slave, b: Driver, mem: seq<bv8>, late: seq<Action>, lo: nat) returns (e: Driver)
    requires b.state.STATE_BUSY_TX_IT? && Inside(b)
    requires Within(late, lo, b.tx.data) && b.tx.data <= |b.mem| && mem == Poked(b.mem, late)
    ensures Inside(b.(mem := mem)) && e == Service(s, b) && e.mem == b.mem
    ensures Service(s, b.(mem := mem)) == e.(mem := mem)
    ensures b.tx.data <= e.tx.data && (e.state.STATE_READY? || e.state == b.state)
  {
    if b.tx.data < |b.mem| {
      PokedElsewhere(b.mem, late, lo, b.tx.data, b.tx.data);
    }
    var acked := Acked(b);
    assert acked.(mem := mem) == Acked(b.(mem := mem));
    e := TxStepLayer(s, acked, mem);
  }

  lemma RxLayers(s: Slave, b: Driver, mem: seq<bv8>, late: seq<Action>, lo: nat) returns (e: Driver)
    requires b.state.STATE_BUSY_RX_IT? && RxInside(b)
    requires Within(late, lo, b.rx.data) && b.rx.data <= |b.mem| && mem == Poked(b.mem, late)
    ensures Inside(b) && Inside(b.(mem := mem)) && e == Service(s, b) && |e.mem| == |b.mem|
    ensures Service(s, b.(mem := mem)) == e.(mem := Poked(e.mem, late))
    ensures b.rx.data <= e.rx.data && (e.state.STATE_READY? || e.state == b.state)
  {
    var acked := Acked(b);
    assert acked.(mem := mem) == Acked(b.(mem := mem));
    if StoresNext(b) {
      e := RxStoresLayer(s, acked, mem);
      PokedCommutes(b.mem, late, lo, b.rx.data, b.rx.data, s(b.log).data);
    } else {
      e := RxQuietLayer(s, acked, mem);
    }
  }

  lemma ServiceLayers(s: Slave, mem: seq<bv8>, d: Driver, a: Account) returns (e: Driver)
    requires Midway(s, mem, d, a) && Inside(d.(mem := a.base))
    ensures Inside(d) && e == Service(s, d.(mem := a.base)) && |e.mem| == |mem|
    ensures Service(s, d) == e.(mem := Poked(e.mem, a.late))
    ensures e.state.STATE_READY? || (e.state == d.state && DataPtr(d) <= DataPtr(e))
  {
    var b := d.(mem := a.base);
    assert d == b.(mem := d.mem);
    if d.state.STATE_BUSY_TX_IT? {
      e := TxLayers(s, b, d.mem, a.late, a.r.ptr);
    } else {
      e := RxLayers(s, b, d.mem, a.late, a.r.ptr);
    }
  }

  /** An interrupt in the middle of a transfer. */
  lemma MidwayServed(s: Slave, mem: seq<bv8>, d: Driver, a: Account) returns (f: Driver)
    requires Midway(s, mem, d, a)
    ensures Inside(d) && f == Service(s, d) && f.accepted == d.accepted
    ensures |f.reports| > |d.reports| ==> f.state.STATE_READY?
    ensures Inv(s, mem, f)
  {
    var o, b := Serial(s, mem, a.before), d.(mem := a.base);
    var e, q := OneInterrupt(s, b, o, a.r, a.p);
    var _ := ServiceLayers(s, mem, d, a);
    f := e.(mem := Poked(e.mem, a.late));
    ServiceFrame(s, b);
    if Last(s, o, a.r, a.p) {
      FinishedInv(s, mem, a, e, f);
    } else {
      var c := a.(p := q, base := e.mem);
      assert f.(mem := e.mem) == e;
      assert Midway(s, mem, f, c);
    }
  }

  /** A finished transfer is what the serial form makes of it. */
  lemma FinishedSerial(s: Slave, mem: seq<bv8>, before: seq<Action>, r: Request, k: nat, e: Driver)
    returns (done: seq<Action>)
    requires AllFit(before, |mem|) && r.way.Interrupt? && Finished(s, e, Serial(s, mem, before), r, k)
    ensures done == before + [Call(r)] && AllFit(done, |mem|)
    ensures Serial(s, mem, done) == Now(e) && Reported(done) == Reported(before) + [r.dir]
  {
    NacksIs(s, Serial(s, mem, before).log, Address(r), k);
    done := SerialNext(s, mem, before, Call(r));
  }

  lemma FinishedInv(s: Slave, mem: seq<bv8>, a: Account, e: Driver, f: Driver)
    requires AllFit(a.before, |mem|) && a.r.way.Interrupt? && a.p.Moving?
    requires Within(a.late, 0, |mem|) && |e.mem| == |mem| && f == e.(mem := Poked(e.mem, a.late))
    requires Finished(s, e, Serial(s, mem, a.before), a.r, a.p.k)
    requires e.accepted == a.before + [Call(a.r)] + a.late && e.reports == Reported(a.before) + [a.r.dir]
    ensures Inv(s, mem, f)
  {
    var done := FinishedSerial(s, mem, a.before, a.r, a.p.k, e);
    var _, _ := SerialPokes(s, mem, done, a.late);
  }

  lemma ServiceFrame(s: Slave, d: Driver)
    requires Inside(d)
    ensures Service(s, d).accepted == d.accepted
    ensures d.state.STATE_READY? ==> Service(s, d) == Acked(d)
  {
  }

  /** An interrupt keeps every pointer inside memory and the invariant; only one that ends a
    * transfer reports a completion. */
  lemma ServiceKeepsInv(s: Slave, mem: seq<bv8>, d: Driver)
    requires Inv(s, mem, d)
    ensures Inside(d) && Inv(s, mem, Service(s, d))
    ensures Completes(s, d) ==> !d.state.STATE_READY? && Service(s, d).state.STATE_READY?
  {
    if d.state.STATE_READY? {
      ServiceFrame(s, d);
    } else {
      var a :| Midway(s, mem, d, a);
      var f := MidwayServed(s, mem, d, a);
    }
  }

  lemma StoreKeepsInv(s: Slave, mem: seq<bv8>, d: Driver, ptr: nat, value: bv8)
    requires Inv(s, mem, d) && ptr < |d.mem|
    ensures Inv(s, mem, Store(d, ptr, value))
  {
    if d.state.STATE_READY? {
      SerialPoke(s, mem, d.accepted, ptr, value);
      assert Store(d, ptr, value).accepted == d.accepted + [Poke(ptr, value)];
    } else {
      var a :| Midway(s, mem, d, a);
      var e, c;
      if a.r.ptr <= ptr < DataPtr(d) {
        e, c := LateStore(s, mem, d, a, ptr, value);
      } else {
        e, c := EarlyStore(s, mem, d, a, ptr, value);
      }
    }
  }

  lemma StartKeepsInv(s: Slave, mem: seq<bv8>, d: Driver, r: Request)
    requires Inv(s, mem, d) && d.state.STATE_READY? && r.way.Interrupt? && Fits(r, |d.mem|)
    ensures Inv(s, mem, Start(d, r))
  {
    var e, a := Start(d, r), Account(d.accepted, r, [], Asking(0), d.mem);
    StartRuns(s, d, r);
    assert e.(mem := d.mem) == e;
    assert e.accepted == d.accepted + [Call(r)] + [];
    assert Midway(s, mem, e, a);
  }

  lemma PerformKeepsInv(s: Slave, mem: seq<bv8>, d: Driver, a: Action)
    requires Inv(s, mem, d) && Performable(s, d, a)
    ensures Inv(s, mem, Perform(s, d, a))
  {
    match a
    case Poke(ptr, value) => StoreKeepsInv(s, mem, d, ptr, value);
    case Call(r) =>
      if d.state.STATE_READY? {
        if r.way.Interrupt? {
          StartKeepsInv(s, mem, d, r);
        } else {
          var _ := SerialNext(s, mem, d.accepted, a);
        }
      }
  }

  lemma {:induction false} PerformAllKeepsInv(s: Slave, mem: seq<bv8>, d: Driver, actions: seq<Action>)
    requires Inv(s, mem, d) && AllPerformable(s, d, actions)
    ensures Inv(s, mem, PerformAll(s, d, actions))
    decreases |actions|
  {
    if actions != [] {
      PerformKeepsInv(s, mem, d, actions[0]);
      PerformAllKeepsInv(s, mem, Perform(s, d, actions[0]), actions[1..]);
    }
  }

  lemma TakeKeepsInv(s: Slave, mem: seq<bv8>, d: Driver, e: Event)
    requires Inv(s, mem, d) && Possible(s, d, e)
    ensures Inv(s, mem, Take(s, d, e))
  {
    match e
    case App(a) => PerformKeepsInv(s, mem, d, a);
    case Irq(callback) =>
      ServiceKeepsInv(s, mem, d);
      if Completes(s, d) {
        PerformAllKeepsInv(s, mem, Service(s, d), callback);
      }
  }

  /** Interrupt-driven runs refine serial ones: after any run from I2C_Init the invariant holds. */
  lemma {:induction false} RunsAreSerial(s: Slave, mem: seq<bv8>, d: Driver, es: seq<Event>)
    requires Inv(s, mem, d) && PossibleRun(s, d, es)
    ensures Inv(s, mem, Run(s, d, es))
    decreases |es|
  {
    if es != [] {
      TakeKeepsInv(s, mem, d, es[0]);
      RunsAreSerial(s, mem, Take(s, d, es[0]), es[1..]);
    }
  }

  /** From I2C_Init, whatever the slave, the callbacks and the interleaving: whenever the driver
    * is ready, the bus has seen the accepted transfers one after another and whole, memory and
    * stores are theirs, and each interrupt transfer was reported exactly once, in order. */
  lemma ReadyMeansSerial(s: Slave, d: Driver, es: seq<Event>)
    requires Initial(d) && PossibleRun(s, d, es) && Run(s, d, es).state.STATE_READY?
    ensures var e := Run(s, d, es);
      && AllFit(e.accepted, |d.mem|)
      && Now(e) == Serial(s, d.mem, e.accepted)
      && e.reports == Reported(e.accepted)
      && !InterruptsOn(e)
  {
    InitialInv(s, d);
    RunsAreSerial(s, d.mem, d, es);
    ControlBits();
  }

  /** The handle in every reachable state between interrupts; `r` is the transfer under way. */
  ghost predicate HandleShape(d: Driver, r: Request) {
    && (InterruptsOn(d) <==> d.state.STATE_BUSY_TX_IT? || d.state.STATE_BUSY_RX_IT?)
    && !d.state.STATE_BUSY?
    && (d.state.STATE_BUSY_TX_IT? ==>
          && r.dir.Tx?
          && (d.tx.phase.TX_ADDRESS? || d.tx.phase.TX_DATA? || d.tx.phase.TX_END?)
          && (d.tx.phase.TX_ADDRESS? ==> d.tx.size == r.size && d.tx.data == r.ptr)
          && (d.tx.phase.TX_DATA? ==> 1 <= d.tx.size < Cells(r))
          && (d.tx.phase.TX_END? ==> d.tx.size == 0)
          && (!d.tx.phase.TX_ADDRESS? ==> d.tx.data + d.tx.size == r.ptr + Cells(r)))
    && (d.state.STATE_BUSY_RX_IT? ==>
          && r.dir.Rx?
          && (d.rx.phase.RX_ADDRESS? || d.rx.phase.RX_GET_DATA?)
          && (d.rx.phase.RX_ADDRESS? ==> d.rx.size == r.size && d.rx.data == r.ptr)
          && (d.rx.phase.RX_GET_DATA? ==>
                d.rx.size < Cells(r) && d.rx.data + d.rx.size + 1 == r.ptr + Cells(r)))
  }

  lemma TxShape(s: Slave, d: Driver, o: Outcome, r: Request, p: Position)
    requires Running(s, d, o, r, p) && r.dir.Tx?
    ensures HandleShape(d, r)
  {
    ControlBits();
  }

  lemma RxShape(s: Slave, d: Driver, o: Outcome, r: Request, p: Position)
    requires Running(s, d, o, r, p) && r.dir.Rx?
    ensures HandleShape(d, r)
  {
    ControlBits();
  }

  lemma ReachableShape(s: Slave, d: Driver, es: seq<Event>) returns (e: Driver, r: Request)
    requires Initial(d) && PossibleRun(s, d, es)
    ensures e == Run(s, d, es) && HandleShape(e, r)
    ensures !e.state.STATE_READY? ==> HasCall(e.accepted) && e.accepted[LastCall(e.accepted)] == Call(r)
  {
    InitialInv(s, d);
    RunsAreSerial(s, d.mem, d, es);
    e := Run(s, d, es);
    if e.state.STATE_READY? {
      ControlBits();
      r := Request(Interrupt, Tx, 0, 0, 0);
    } else {
      var a :| Midway(s, d.mem, e, a);
      r := a.r;
      LastCallIs(a.before, Call(r), a.late);
      var o := Serial(s, d.mem, a.before);
      if r.dir.Tx? {
        TxShape(s, e.(mem := a.base), o, r, a.p);
      } else {
        RxShape(s, e.(mem := a.base), o, r, a.p);
      }
    }
  }

  // ---- The same run with blocking transfers only ----

  function Blocked(a: Action): Action {
    if a.Call? then Call(Twin(a.r)) else a
  }

  function AllBlocked(actions: seq<Action>): (b: seq<Action>)
    ensures |b| == |actions|
  {
    seq(|actions|, i requires 0 <= i < |actions| => Blocked(actions[i]))
  }

  /** No Size is 0 and no slave refuses a data byte before the last. */
  ghost predicate Plain(s: Slave, mem: seq<bv8>, actions: seq<Action>)
    requires AllFit(actions, |mem|)
    decreases |actions|
  {
    actions != [] ==>
      var a, before := actions[|actions| - 1], actions[..|actions| - 1];
      && Plain(s, mem, before)
      && (a.Call? && a.r.way.Interrupt? ==>
            var o := Serial(s, mem, before);
            && a.r.size != 0
            && AckAfter(s, o.log, Address(a.r), Nacks(s, o.log, Address(a.r)))
            && DataTaken(s, o, a.r, Nacks(s, o.log, Address(a.r))))
  }

  /** Then replacing every interrupt transfer by the blocking one changes nothing. */
  lemma {:induction false} SerialSameBlocked(s: Slave, mem: seq<bv8>, actions: seq<Action>)
    requires AllFit(actions, |mem|) && Plain(s, mem, actions)
    ensures AllFit(AllBlocked(actions), |mem|)
    ensures Serial(s, mem, AllBlocked(actions)) == Serial(s, mem, actions)
    decreases |actions|
  {
    if actions != [] {
      var a, before := actions[|actions| - 1], actions[..|actions| - 1];
      SerialSameBlocked(s, mem, before);
      assert AllBlocked(actions)[..|actions| - 1] == AllBlocked(before);
      if a.Call? && a.r.way.Interrupt? {
        var o := Serial(s, mem, before);
        SameAsBlocking(s, o, a.r, Nacks(s, o.log, Address(a.r)));
      }
    }
  }

  /** From I2C_Init, any run whose accepted transfers are plain leaves the bus, the memory and
    * the order of the stores as if every transfer had been made by the blocking functions. */
  lemma InterruptsAsBlocking(s: Slave, d: Driver, es: seq<Event>)
    requires Initial(d) && PossibleRun(s, d, es) && Run(s, d, es).state.STATE_READY?
    requires AllFit(Run(s, d, es).accepted, |d.mem|) && Plain(s, d.mem, Run(s, d, es).accepted)
    ensures AllFit(AllBlocked(Run(s, d, es).accepted), |d.mem|)
    ensures Now(Run(s, d, es)) == Serial(s, d.mem, AllBlocked(Run(s, d, es).accepted))
  {
    ReadyMeansSerial(s, d, es);
    SerialSameBlocked(s, d.mem, Run(s, d, es).accepted);
  }
}
