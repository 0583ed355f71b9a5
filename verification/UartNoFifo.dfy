/** The UART driver without FIFOs (uart_no_fifo/core/src/uart.c): one byte an interrupt, in both
  * directions at once, over one handle, one CONTROL register and one memory. */
module UartNoFifo {
  import opened Memory

  /** The null pointer, which is no address of a buffer. */
  const NULL: nat := 0

  datatype State = STATE_RESET | STATE_READY | STATE_BUSY_TX | STATE_BUSY_RX
  datatype Xfer = Xfer(ptr: nat, size: U16, count: U16)

  /** CONTROL, bit by bit. */
  datatype Control = Control(txReset: bool, txInt: bool, txOn: bool, rxReset: bool, rxInt: bool, rxOn: bool)

  /** The main program's blocking UART_Transmit: what it has left. With nothing left there is none. */
  datatype Loop = Loop(ptr: nat, left: nat)

  /** `sent`: bytes written to TX_DATA; `taken`: how many were read from RX_DATA; `txDone`,
    * `rxDone`: completion callbacks so far. */
  datatype Uart = Uart(
    gState: State, rxState: State, tx: Xfer, rx: Xfer, control: Control, mem: seq<Byte>,
    sent: seq<Byte>, taken: nat, txDone: nat, rxDone: nat, loop: Loop)

  /** Calls of the driver's functions, and stores of the program to memory. A blocking transmit here is
    * one made in a handler, which nothing cuts into. */
  datatype Action =
    | TransmitIT(ptr: nat, size: U16) | Transmit(ptr: nat, size: U16)
    | TxEnable | TxDisable | TxReset
    | ReceiveIT(ptr: nat, size: U16)
    | RxEnable | RxDisable | RxReset
    | Poke(ptr: nat, value: Byte)

  /** An interrupt, with what its completion callback would do; an action of the program; the main
    * program's blocking transmit, begun and then going on byte by byte. */
  datatype Event =
    | TxIrq(callback: seq<Action>) | RxIrq(callback: seq<Action>) | Do(action: Action)
    | Begin(ptr: nat, size: U16) | Send

  // ---- Steps ----

  predicate ActionFits(a: Action, limit: nat) {
    match a
    case TransmitIT(ptr, size) => ptr + size <= limit
    case Transmit(ptr, size) => ptr + size <= limit
    case ReceiveIT(ptr, size) => ptr + Rounds(size) <= limit
    case Poke(ptr, _) => ptr < limit
    case _ => true
  }

  /** What the transmit calls ask of their arguments. */
  predicate Sendable(ptr: nat, size: U16) {
    ptr != NULL && size != 0
  }

  function Perform(u: Uart, a: Action): (v: Uart)
    requires ActionFits(a, |u.mem|)
    ensures |v.mem| == |u.mem|
  {
    match a
    case TransmitIT(ptr, size) =>
      if u.gState != STATE_READY || !Sendable(ptr, size) then u
      else u.(tx := Xfer(ptr, size, size), gState := STATE_BUSY_TX, control := u.control.(txInt := true))
    case Transmit(ptr, size) =>
      if u.gState != STATE_READY || !Sendable(ptr, size) then u
      else u.(sent := u.sent + u.mem[ptr..ptr + size])
    case TxEnable => if u.gState == STATE_READY then u.(control := u.control.(txOn := true)) else u
    case TxDisable => if u.gState == STATE_READY then u.(control := u.control.(txOn := false)) else u
    case TxReset => u.(control := u.control.(txReset := true))
    case ReceiveIT(ptr, size) =>
      if u.rxState != STATE_READY then u
      else u.(rx := Xfer(ptr, size, size), rxState := STATE_BUSY_RX, control := u.control.(rxInt := true))
    case RxEnable => if u.rxState == STATE_READY then u.(control := u.control.(rxOn := true)) else u
    case RxDisable => if u.rxState == STATE_READY then u.(control := u.control.(rxOn := false)) else u
    case RxReset => u.(control := u.control.(rxReset := true))
    case Poke(ptr, value) => u.(mem := u.mem[ptr := value])
  }

  function Begun(u: Uart, ptr: nat, size: U16): Uart {
    if u.gState != STATE_READY || !Sendable(ptr, size) then u else u.(loop := Loop(ptr, size))
  }

  /** One turn of the loop in which the transmitter is not busy. */
  function Sent(u: Uart): Uart
    requires u.loop.left > 0 && u.loop.ptr < |u.mem|
  {
    u.(sent := u.sent + [u.mem[u.loop.ptr]], loop := Loop(u.loop.ptr + 1, u.loop.left - 1))
  }

  predicate AllFit(actions: seq<Action>, limit: nat) {
    forall i :: 0 <= i < |actions| ==> ActionFits(actions[i], limit)
  }

  function PerformAll(u: Uart, actions: seq<Action>): (v: Uart)
    requires AllFit(actions, |u.mem|)
    ensures |v.mem| == |u.mem|
    decreases |actions|
  {
    if actions == [] then u else PerformAll(Perform(u, actions[0]), actions[1..])
  }

  function TxAdvance(u: Uart): Uart {
    u.(tx := u.tx.(ptr := u.tx.ptr + 1, count := Decrement(u.tx.count)))
  }

  function RxAdvance(u: Uart): Uart {
    u.(rx := u.rx.(ptr := u.rx.ptr + 1, count := Decrement(u.rx.count)))
  }

  predicate TxCompletes(u: Uart) {
    u.gState == STATE_BUSY_TX && u.tx.count == 0
  }

  predicate RxCompletes(u: Uart) {
    u.rxState == STATE_BUSY_RX && u.rx.count == 1
  }

  predicate TxInside(u: Uart) {
    u.gState == STATE_BUSY_TX && u.tx.count != 0 ==> u.tx.ptr < |u.mem|
  }

  predicate RxInside(u: Uart) {
    u.rxState == STATE_BUSY_RX ==> u.rx.ptr < |u.mem|
  }

  /** All is sent: masked, ready, and about to report. */
  function TxFinish(u: Uart): Uart {
    u.(control := u.control.(txInt := false), gState := STATE_READY, txDone := u.txDone + 1)
  }

  function RxStore(input: nat -> Byte, u: Uart): Uart
    requires u.rx.ptr < |u.mem|
  {
    u.(mem := u.mem[u.rx.ptr := input(u.taken)], taken := u.taken + 1)
  }

  /** All is stored: masked and about to report, but not ready yet. */
  function RxFinish(u: Uart): Uart {
    u.(control := u.control.(rxInt := false), rxDone := u.rxDone + 1)
  }

  /** Pointer and counter are stepped after the callback, whatever it did to them. */
  function TxHandler(u: Uart, callback: seq<Action>): (v: Uart)
    requires TxInside(u) && (TxCompletes(u) ==> AllFit(callback, |u.mem|))
    ensures |v.mem| == |u.mem|
  {
    if u.gState != STATE_BUSY_TX then u
    else if u.tx.count == 0 then TxAdvance(PerformAll(TxFinish(u), callback))
    else TxAdvance(u.(sent := u.sent + [u.mem[u.tx.ptr]]))
  }

  /** The callback runs while the state is still busy. */
  function RxHandler(input: nat -> Byte, u: Uart, callback: seq<Action>): (v: Uart)
    requires RxInside(u) && (RxCompletes(u) ==> AllFit(callback, |u.mem|))
    ensures |v.mem| == |u.mem|
  {
    if u.rxState != STATE_BUSY_RX then u
    else
      var v := RxStore(input, u);
      if u.rx.count != 1 then RxAdvance(v)
      else RxAdvance(PerformAll(RxFinish(v), callback).(rxState := STATE_READY))
  }

  // ---- Which stores are in flight, and what the program may do meanwhile ----

  /** Bytes a transmit has yet to read, from tx.ptr on. */
  function TxLeft(u: Uart): nat {
    if u.gState == STATE_BUSY_TX then u.tx.count else 0
  }

  /** Cells a receive has yet to write, from rx.ptr on: none once its interrupt is masked. */
  function RxLeft(u: Uart): nat {
    if u.rxState == STATE_BUSY_RX && u.control.rxInt then Rounds(u.rx.count) else 0
  }

  /** The whole buffer of a receive. */
  function RxStart(u: Uart): int {
    u.rx.ptr + Rounds(u.rx.count) - Rounds(u.rx.size)
  }

  /** Buffers lie in memory; of a transmit, by interrupt or blocking, and a receive in flight at the same
    * time, the cells yet to be read and the cells yet to be written are different; and the program
    * stores neither to cells yet to be transmitted nor into the buffer of a receive under way. */
  predicate Permitted(u: Uart, a: Action) {
    && ActionFits(a, |u.mem|)
    && match a {
      case TransmitIT(ptr, size) =>
        u.gState == STATE_READY && Sendable(ptr, size) ==> Apart(ptr, size, u.rx.ptr, RxLeft(u))
      case ReceiveIT(ptr, size) =>
        u.rxState == STATE_READY ==>
          Apart(ptr, Rounds(size), u.tx.ptr, TxLeft(u)) && Apart(ptr, Rounds(size), u.loop.ptr, u.loop.left)
      case Poke(ptr, _) =>
        && !(u.tx.ptr <= ptr < u.tx.ptr + TxLeft(u)) && !(u.loop.ptr <= ptr < u.loop.ptr + u.loop.left)
        && (RxLeft(u) > 0 ==> !(RxStart(u) <= ptr < RxStart(u) + Rounds(u.rx.size)))
      case _ => true
    }
  }

  predicate AllPermitted(u: Uart, actions: seq<Action>)
    ensures AllPermitted(u, actions) ==> AllFit(actions, |u.mem|)
    decreases |actions|
  {
    actions != [] ==> Permitted(u, actions[0]) && AllPermitted(Perform(u, actions[0]), actions[1..])
  }

  /** Between any two actions. */
  predicate CallGood(u: Uart) {
    && u.gState != STATE_BUSY_RX && u.rxState != STATE_BUSY_TX
    && (u.gState == STATE_BUSY_TX ==> u.control.txInt && u.tx.ptr + u.tx.count <= |u.mem|)
    && (u.rxState == STATE_BUSY_RX ==>
          && u.rx.ptr + Rounds(u.rx.count) <= |u.mem|
          && Rounds(u.rx.count) <= Rounds(u.rx.size) <= u.rx.ptr + Rounds(u.rx.count))
    && Apart(u.tx.ptr, TxLeft(u), u.rx.ptr, RxLeft(u))
    && u.loop.ptr + u.loop.left <= |u.mem| && Apart(u.loop.ptr, u.loop.left, u.rx.ptr, RxLeft(u))
  }

  /** Between any two events: besides, a receive under way has its interrupt enabled. */
  predicate Good(u: Uart) {
    CallGood(u) && (u.rxState == STATE_BUSY_RX ==> u.control.rxInt)
  }

  predicate Possible(input: nat -> Byte, u: Uart, e: Event)
    requires Good(u)
  {
    match e
    case Do(a) => Permitted(u, a)
    case TxIrq(callback) => TxCompletes(u) ==> AllPermitted(TxFinish(u), callback)
    case RxIrq(callback) => RxCompletes(u) ==> AllPermitted(RxFinish(RxStore(input, u)), callback)
    case Begin(ptr, size) => u.loop.left == 0 && Permitted(u, TransmitIT(ptr, size))
    case Send => u.loop.left > 0
  }

  function Take(input: nat -> Byte, u: Uart, e: Event): (v: Uart)
    requires Good(u) && Possible(input, u, e)
    ensures |v.mem| == |u.mem|
  {
    match e
    case Do(a) => Perform(u, a)
    case TxIrq(callback) => TxHandler(u, callback)
    case RxIrq(callback) => RxHandler(input, u, callback)
    case Begin(ptr, size) => Begun(u, ptr, size)
    case Send => Sent(u)
  }

  // ---- What every step keeps ----

  lemma PerformKeeps(u: Uart, a: Action)
    requires CallGood(u) && Permitted(u, a)
    ensures CallGood(Perform(u, a)) && (Good(u) ==> Good(Perform(u, a)))
  {
  }

  lemma {:induction false} PerformAllKeeps(u: Uart, actions: seq<Action>)
    requires CallGood(u) && AllPermitted(u, actions)
    ensures CallGood(PerformAll(u, actions)) && (Good(u) ==> Good(PerformAll(u, actions)))
    decreases |actions|
  {
    if actions != [] {
      PerformKeeps(u, actions[0]);
      PerformAllKeeps(Perform(u, actions[0]), actions[1..]);
    }
  }

  /** A receive is not disturbed by any action, and its buffer not if its interrupt is still on. */
  lemma {:induction false} BusyRxStays(u: Uart, actions: seq<Action>)
    requires u.rxState == STATE_BUSY_RX && AllFit(actions, |u.mem|)
    ensures var v := PerformAll(u, actions);
      v.rxState == STATE_BUSY_RX && v.rx == u.rx && v.control.rxInt == u.control.rxInt
      && v.taken == u.taken && v.rxDone == u.rxDone && v.loop == u.loop
    decreases |actions|
  {
    if actions != [] {
      BusyRxStays(Perform(u, actions[0]), actions[1..]);
    }
  }

  /** A transmit under way is not disturbed by any action. */
  lemma {:induction false} BusyTxStays(u: Uart, actions: seq<Action>)
    requires u.gState == STATE_BUSY_TX && AllFit(actions, |u.mem|)
    ensures var v := PerformAll(u, actions);
      v.gState == STATE_BUSY_TX && v.tx == u.tx && v.control.txInt == u.control.txInt
      && v.sent == u.sent && v.txDone == u.txDone
    decreases |actions|
  {
    if actions != [] {
      BusyTxStays(Perform(u, actions[0]), actions[1..]);
    }
  }

  /** A transmit started by a callback has at least one byte to go. */
  lemma {:induction false} NonzeroAfter(u: Uart, actions: seq<Action>)
    requires AllFit(actions, |u.mem|) && (u.gState == STATE_BUSY_TX ==> u.tx.count != 0)
    ensures PerformAll(u, actions).gState == STATE_BUSY_TX ==> PerformAll(u, actions).tx.count != 0
    decreases |actions|
  {
    if actions != [] {
      NonzeroAfter(Perform(u, actions[0]), actions[1..]);
    }
  }

  lemma TxKeepsGood(u: Uart, callback: seq<Action>)
    requires Good(u) && (TxCompletes(u) ==> AllPermitted(TxFinish(u), callback))
    ensures Good(TxHandler(u, callback))
  {
    if TxCompletes(u) {
      PerformAllKeeps(TxFinish(u), callback);
      NonzeroAfter(TxFinish(u), callback);
    }
  }

  lemma RxKeepsGood(input: nat -> Byte, u: Uart, callback: seq<Action>)
    requires Good(u) && (RxCompletes(u) ==> AllPermitted(RxFinish(RxStore(input, u)), callback))
    ensures Good(RxHandler(input, u, callback))
  {
    if RxCompletes(u) {
      PerformAllKeeps(RxFinish(RxStore(input, u)), callback);
      BusyRxStays(RxFinish(RxStore(input, u)), callback);
    }
  }

  /** In every reachable state the pointers of both directions stay inside their buffers. */
  lemma TakeKeepsGood(input: nat -> Byte, u: Uart, e: Event)
    requires Good(u) && Possible(input, u, e)
    ensures Good(Take(input, u, e))
  {
    match e
    case Do(a) => PerformKeeps(u, a);
    case TxIrq(callback) => TxKeepsGood(u, callback);
    case RxIrq(callback) => RxKeepsGood(input, u, callback);
    case _ =>
  }

  predicate PossibleRun(input: nat -> Byte, u: Uart, es: seq<Event>)
    requires Good(u)
    decreases |es|
  {
    es != [] ==>
      && Possible(input, u, es[0])
      && (TakeKeepsGood(input, u, es[0]); PossibleRun(input, Take(input, u, es[0]), es[1..]))
  }

  function Run(input: nat -> Byte, u: Uart, es: seq<Event>): (v: Uart)
    requires Good(u) && PossibleRun(input, u, es)
    ensures Good(v) && |v.mem| == |u.mem|
    decreases |es|
  {
    if es == [] then u
    else
      TakeKeepsGood(input, u, es[0]);
      Run(input, Take(input, u, es[0]), es[1..])
  }
}
