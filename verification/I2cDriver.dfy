/** The driver of i2c_master.c as a state machine: one step per API call and one per interrupt.
  * The class of I2cMaster.dfy is proved to take exactly these steps. */
module I2cDriver {
  import opened Memory
  import opened I2cBus

  datatype State = STATE_READY | STATE_BUSY | STATE_BUSY_TX_IT | STATE_BUSY_RX_IT
  datatype TxPhase = TX_READY | TX_ADDRESS | TX_DATA | TX_END
  datatype RxPhase = RX_READY | RX_ADDRESS | RX_DATA | RX_GET_DATA | RX_END

  datatype Job<P> = Job(phase: P, address: bv8, data: nat, size: U16)

  /** What application code does between interrupts or inside a completion callback. */
  datatype Action = Call(r: Request) | Poke(ptr: nat, value: bv8)

  /** The handle, the control register and the memory, with the history of the bus, of the
    * stores made by receives, of the accepted actions and of the completion callbacks. */
  datatype Driver = Driver(
    state: State, ctr: bv8, tx: Job<TxPhase>, rx: Job<RxPhase>, mem: seq<bv8>,
    log: seq<Command>, iacks: nat, stores: seq<nat>,
    accepted: seq<Action>, reports: seq<Direction>)

  predicate InterruptsOn(d: Driver) {
    d.ctr & IEN != 0
  }

  function Issue(d: Driver, flags: bv8): Driver {
    d.(log := d.log + [Command(Txr(d.log), flags)])
  }

  function SendByte(d: Driver, byte: bv8, flags: bv8): Driver {
    d.(log := d.log + [Command(byte, flags)])
  }

  // ---- Transmit machine ----

  function TxAddress(d: Driver): Driver {
    SendByte(d.(tx := d.tx.(phase := TX_ADDRESS)), WriteAddress(d.tx.address), STA | WR)
  }

  function TxSend(d: Driver): Driver
    requires d.tx.data < |d.mem|
  {
    var last := d.tx.size == 1;
    SendByte(d.(tx := Job(if last then TX_END else TX_DATA, d.tx.address, d.tx.data + 1, Decrement(d.tx.size))),
             d.mem[d.tx.data], if last then WR | STO else WR)
  }

  function TxFinish(d: Driver): Driver {
    d.(tx := d.tx.(phase := TX_READY), state := STATE_READY, ctr := IntDisabled(d.ctr),
       reports := d.reports + [Tx])
  }

  predicate TxInside(d: Driver) {
    d.tx.phase.TX_ADDRESS? || d.tx.phase.TX_DATA? ==> d.tx.data < |d.mem|
  }

  function TxStep(s: Slave, d: Driver): Driver
    requires TxInside(d)
  {
    match d.tx.phase
    case TX_READY => TxAddress(d)
    case TX_ADDRESS => if Nacked(s, d.log) then TxAddress(d) else TxSend(d)
    case TX_DATA => if Nacked(s, d.log) then TxFinish(d) else TxSend(d)
    case TX_END => TxFinish(d)
  }

  // ---- Receive machine ----

  function RxAddress(d: Driver): Driver {
    SendByte(d.(rx := d.rx.(phase := RX_ADDRESS)), ReadAddress(d.rx.address), STA | WR)
  }

  function RxRead(d: Driver): Driver {
    Issue(d.(rx := d.rx.(phase := RX_GET_DATA, size := Decrement(d.rx.size))),
          if d.rx.size == 1 then RD | ACK else RD)
  }

  function RxStore(s: Slave, d: Driver): Driver
    requires d.rx.data < |d.mem|
  {
    d.(mem := d.mem[d.rx.data := s(d.log).data], stores := d.stores + [d.rx.data])
  }

  function RxAdvance(d: Driver): Driver {
    d.(rx := d.rx.(data := d.rx.data + 1))
  }

  function RxFinish(s: Slave, d: Driver): Driver
    requires d.rx.data < |d.mem|
  {
    Issue(RxStore(s, d).(rx := d.rx.(phase := RX_READY), state := STATE_READY, ctr := IntDisabled(d.ctr)), STO)
      .(reports := d.reports + [Rx])
  }

  predicate RxInside(d: Driver) {
    d.rx.phase.RX_GET_DATA? || d.rx.phase.RX_END? ==> d.rx.data < |d.mem|
  }

  function RxStep(s: Slave, d: Driver): Driver
    requires RxInside(d)
  {
    match d.rx.phase
    case RX_READY => RxAddress(d)
    case RX_ADDRESS => if Nacked(s, d.log) then RxAddress(d) else RxRead(d)
    case RX_DATA => RxRead(d)
    case RX_GET_DATA => if Nacked(s, d.log) then RxFinish(s, d) else RxRead(RxAdvance(RxStore(s, d)))
    case RX_END => RxFinish(s, d)
  }

  // ---- Interrupts and API calls ----

  predicate Inside(d: Driver) {
    && (d.state.STATE_BUSY_TX_IT? ==> TxInside(d))
    && (d.state.STATE_BUSY_RX_IT? ==> RxInside(d))
  }

  /** The interrupt flag is cleared. */
  function Acked(d: Driver): Driver {
    d.(iacks := d.iacks + 1)
  }

  /** The handler up to the completion callback. */
  function Service(s: Slave, d: Driver): Driver
    requires Inside(d)
  {
    match d.state
    case STATE_BUSY_TX_IT => TxStep(s, Acked(d))
    case STATE_BUSY_RX_IT => RxStep(s, Acked(d))
    case _ => Acked(d)
  }

  /** Does the next interrupt report completion? */
  predicate Completes(s: Slave, d: Driver)
    requires Inside(d)
  {
    |Service(s, d).reports| > |d.reports|
  }

  function Start(d: Driver, r: Request): Driver {
    var e := d.(ctr := IntEnabled(d.ctr), accepted := d.accepted + [Call(r)]);
    if r.dir.Tx? then
      TxAddress(e.(state := STATE_BUSY_TX_IT, tx := Job(TX_READY, r.dev, r.ptr, r.size)))
    else
      RxAddress(e.(state := STATE_BUSY_RX_IT, rx := Job(RX_READY, r.dev, r.ptr, r.size)))
  }

  function After(d: Driver, o: Outcome): Driver {
    d.(log := o.log, mem := o.mem, stores := o.stores)
  }

  function Now(d: Driver): Outcome {
    Outcome(d.log, d.mem, d.stores)
  }

  /** An action that can be performed and that ends: its addresses exist, and a blocking call has a
    * slave that acknowledges in the end. */
  ghost predicate Performable(s: Slave, d: Driver, a: Action) {
    match a
    case Poke(ptr, _) => ptr < |d.mem|
    case Call(r) =>
      d.state.STATE_READY? ==>
        && Fits(r, |d.mem|)
        && (r.way.Blocking? ==> exists k: nat :: AckAfter(s, d.log, Address(r), k))
  }

  predicate HasCall(actions: seq<Action>) {
    exists i :: 0 <= i < |actions| && actions[i].Call?
  }

  /** The last call: of a busy driver, the transfer under way. */
  function LastCall(actions: seq<Action>): (i: nat)
    requires HasCall(actions)
    ensures i < |actions| && actions[i].Call?
    ensures forall j :: i < j < |actions| ==> actions[j].Poke?
    decreases |actions|
  {
    if actions[|actions| - 1].Call? then |actions| - 1 else LastCall(actions[..|actions| - 1])
  }

  /** How far a transfer has got in its buffer: cells before are sent, or stored. */
  function DataPtr(d: Driver): nat {
    if d.state.STATE_BUSY_TX_IT? then d.tx.data else d.rx.data
  }

  /** Where a store by the application is recorded: after all that was accepted, but before the
    * transfer under way unless that is done with the cell. */
  function Place(d: Driver, ptr: nat): (n: nat)
    ensures n <= |d.accepted|
  {
    if d.state.STATE_READY? || !HasCall(d.accepted) then |d.accepted|
    else
      var i := LastCall(d.accepted);
      if d.accepted[i].r.ptr <= ptr < DataPtr(d) then |d.accepted| else i
  }

  function Store(d: Driver, ptr: nat, value: bv8): Driver
    requires ptr < |d.mem|
  {
    var n := Place(d, ptr);
    d.(mem := d.mem[ptr := value], accepted := d.accepted[..n] + [Poke(ptr, value)] + d.accepted[n..])
  }

  /** One application action; a transfer call made while the driver is busy is refused. */
  ghost function Perform(s: Slave, d: Driver, a: Action): Driver
    requires Performable(s, d, a)
  {
    match a
    case Poke(ptr, value) => Store(d, ptr, value)
    case Call(r) =>
      if !d.state.STATE_READY? then d
      else if r.way.Interrupt? then Start(d, r)
      else
        After(d, Whole(s, Now(d), r, Nacks(s, d.log, Address(r))))
          .(iacks := d.iacks + 1, accepted := d.accepted + [a])
  }

  ghost predicate AllPerformable(s: Slave, d: Driver, actions: seq<Action>)
    decreases |actions|
  {
    actions != [] ==>
      && Performable(s, d, actions[0])
      && AllPerformable(s, Perform(s, d, actions[0]), actions[1..])
  }

  ghost function PerformAll(s: Slave, d: Driver, actions: seq<Action>): Driver
    requires AllPerformable(s, d, actions)
    decreases |actions|
  {
    if actions == [] then d
    else PerformAll(s, Perform(s, d, actions[0]), actions[1..])
  }

  /** The callback can do its part, if `after` reports more than `reports`. */
  ghost predicate Callable(s: Slave, reports: seq<Direction>, after: Driver, callback: seq<Action>) {
    |after.reports| > |reports| ==> AllPerformable(s, after, callback)
  }

  ghost function Called(s: Slave, reports: seq<Direction>, after: Driver, callback: seq<Action>): Driver
    requires Callable(s, reports, after, callback)
  {
    if |after.reports| > |reports| then PerformAll(s, after, callback) else after
  }

  /** An interrupt, with what the completion callback would do, or an action of the program. */
  datatype Event = Irq(callback: seq<Action>) | App(action: Action)

  ghost predicate Possible(s: Slave, d: Driver, e: Event) {
    match e
    case App(a) => Performable(s, d, a)
    case Irq(callback) => Inside(d) && Callable(s, d.reports, Service(s, d), callback)
  }

  /** The handler: nothing happens after the callback. */
  ghost function Take(s: Slave, d: Driver, e: Event): Driver
    requires Possible(s, d, e)
  {
    match e
    case App(a) => Perform(s, d, a)
    case Irq(callback) => Called(s, d.reports, Service(s, d), callback)
  }

  /** After I2C_Init. */
  predicate Initial(d: Driver) {
    && d.state.STATE_READY? && d.ctr == EN && d.log == [] && d.stores == []
    && d.accepted == [] && d.reports == []
  }

  ghost predicate PossibleRun(s: Slave, d: Driver, es: seq<Event>)
    decreases |es|
  {
    es != [] ==> Possible(s, d, es[0]) && PossibleRun(s, Take(s, d, es[0]), es[1..])
  }

  ghost function Run(s: Slave, d: Driver, es: seq<Event>): Driver
    requires PossibleRun(s, d, es)
    decreases |es|
  {
    if es == [] then d else Run(s, Take(s, d, es[0]), es[1..])
  }
}
