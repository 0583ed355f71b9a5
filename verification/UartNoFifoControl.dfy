/** The CONTROL register of the FIFO-less driver over whole runs: which calls switch its bits, and that
  * nothing else does. */
module UartNoFifoControl {
  import opened Memory
  import opened UartNoFifo

  /** The bits that only the application switches. */
  datatype Switches = Switches(txOn: bool, rxOn: bool, txReset: bool, rxReset: bool)

  function SwitchesOf(c: Control): Switches {
    Switches(c.txOn, c.rxOn, c.txReset, c.rxReset)
  }

  /** Enabling and disabling work on a ready direction only, resets always; no call ends a reset. */
  function Switched(k: Switches, gState: State, rxState: State, a: Action): Switches {
    match a
    case TxEnable => if gState == STATE_READY then k.(txOn := true) else k
    case TxDisable => if gState == STATE_READY then k.(txOn := false) else k
    case RxEnable => if rxState == STATE_READY then k.(rxOn := true) else k
    case RxDisable => if rxState == STATE_READY then k.(rxOn := false) else k
    case TxReset => k.(txReset := true)
    case RxReset => k.(rxReset := true)
    case _ => k
  }

  function SwitchedAll(u: Uart, k: Switches, actions: seq<Action>): Switches
    requires AllFit(actions, |u.mem|)
    decreases |actions|
  {
    if actions == [] then k
    else SwitchedAll(Perform(u, actions[0]), Switched(k, u.gState, u.rxState, actions[0]), actions[1..])
  }

  /** What an event switches: an interrupt, only by the calls of its callback. */
  function SwitchedBy(input: nat -> Byte, u: Uart, k: Switches, e: Event): Switches
    requires Good(u) && Possible(input, u, e)
  {
    match e
    case Do(a) => Switched(k, u.gState, u.rxState, a)
    case TxIrq(callback) => if TxCompletes(u) then SwitchedAll(TxFinish(u), k, callback) else k
    case RxIrq(callback) => if RxCompletes(u) then SwitchedAll(RxFinish(RxStore(input, u)), k, callback) else k
    case _ => k
  }

  function SwitchedIn(input: nat -> Byte, u: Uart, k: Switches, es: seq<Event>): Switches
    requires Good(u) && PossibleRun(input, u, es)
    decreases |es|
  {
    if es == [] then k
    else
      TakeKeepsGood(input, u, es[0]);
      SwitchedIn(input, Take(input, u, es[0]), SwitchedBy(input, u, k, es[0]), es[1..])
  }

  lemma OneSwitches(u: Uart, a: Action) returns (v: Uart)
    requires ActionFits(a, |u.mem|)
    ensures v == Perform(u, a) && SwitchesOf(v.control) == Switched(SwitchesOf(u.control), u.gState, u.rxState, a)
  {
    v := Perform(u, a);
  }

  lemma {:induction false} ActionsSwitch(u: Uart, actions: seq<Action>)
    requires AllFit(actions, |u.mem|)
    ensures SwitchesOf(PerformAll(u, actions).control) == SwitchedAll(u, SwitchesOf(u.control), actions)
    decreases |actions|
  {
    if actions != [] {
      var v := OneSwitches(u, actions[0]);
      ActionsSwitch(v, actions[1..]);
    }
  }

  lemma TxIrqSwitches(u: Uart, callback: seq<Action>) returns (v: Uart)
    requires TxInside(u) && (TxCompletes(u) ==> AllFit(callback, |u.mem|))
    ensures v == TxHandler(u, callback)
    ensures SwitchesOf(v.control) ==
      if TxCompletes(u) then SwitchedAll(TxFinish(u), SwitchesOf(u.control), callback) else SwitchesOf(u.control)
  {
    v := TxHandler(u, callback);
    if TxCompletes(u) {
      ActionsSwitch(TxFinish(u), callback);
    }
  }

  lemma RxIrqSwitches(input: nat -> Byte, u: Uart, callback: seq<Action>) returns (v: Uart)
    requires Good(u) && (RxCompletes(u) ==> AllFit(callback, |u.mem|))
    ensures v == RxHandler(input, u, callback)
    ensures SwitchesOf(v.control) ==
      if RxCompletes(u) then SwitchedAll(RxFinish(RxStore(input, u)), SwitchesOf(u.control), callback)
      else SwitchesOf(u.control)
  {
    v := RxHandler(input, u, callback);
    if RxCompletes(u) {
      ActionsSwitch(RxFinish(RxStore(input, u)), callback);
    }
  }

  lemma TakeSwitches(input: nat -> Byte, u: Uart, e: Event) returns (v: Uart)
    requires Good(u) && Possible(input, u, e)
    ensures v == Take(input, u, e) && SwitchesOf(v.control) == SwitchedBy(input, u, SwitchesOf(u.control), e)
  {
    match e
    case Do(a) => v := OneSwitches(u, a);
    case TxIrq(callback) => v := TxIrqSwitches(u, callback);
    case RxIrq(callback) => v := RxIrqSwitches(input, u, callback);
    case Begin(ptr, size) => v := Begun(u, ptr, size);
    case Send => v := Sent(u);
  }

  /** Over any run, the enable and reset bits of both directions are what the calls made, those in
    * callbacks included, switch them to one after another; sending, receiving and completing leave them. */
  lemma {:induction false} RunSwitches(input: nat -> Byte, u: Uart, es: seq<Event>)
    requires Good(u) && PossibleRun(input, u, es)
    ensures SwitchesOf(Run(input, u, es).control) == SwitchedIn(input, u, SwitchesOf(u.control), es)
    decreases |es|
  {
    if es != [] {
      TakeKeepsGood(input, u, es[0]);
      var _ := TakeSwitches(input, u, es[0]);
      RunSwitches(input, Take(input, u, es[0]), es[1..]);
    }
  }

  predicate SwitchesNone(actions: seq<Action>) {
    forall i :: 0 <= i < |actions| ==>
      !(actions[i].TxEnable? || actions[i].TxDisable? || actions[i].TxReset?
        || actions[i].RxEnable? || actions[i].RxDisable? || actions[i].RxReset?)
  }

  predicate EventSwitchesNone(e: Event) {
    match e
    case Do(a) => SwitchesNone([a])
    case TxIrq(callback) => SwitchesNone(callback)
    case RxIrq(callback) => SwitchesNone(callback)
    case _ => true
  }

  lemma {:induction false} ActionsSwitchNone(u: Uart, actions: seq<Action>)
    requires AllFit(actions, |u.mem|) && SwitchesNone(actions)
    ensures SwitchesOf(PerformAll(u, actions).control) == SwitchesOf(u.control)
    decreases |actions|
  {
    if actions != [] {
      ActionsSwitchNone(Perform(u, actions[0]), actions[1..]);
    }
  }

  lemma TakeSwitchesNone(input: nat -> Byte, u: Uart, e: Event)
    requires Good(u) && Possible(input, u, e) && EventSwitchesNone(e)
    ensures SwitchesOf(Take(input, u, e).control) == SwitchesOf(u.control)
  {
    match e
    case Do(a) => assert [a][0] == a;
    case TxIrq(callback) =>
      if TxCompletes(u) {
        ActionsSwitchNone(TxFinish(u), callback);
      }
    case RxIrq(callback) =>
      if RxCompletes(u) {
        ActionsSwitchNone(RxFinish(RxStore(input, u)), callback);
      }
    case _ =>
  }

  /** So a run without such calls leaves the four bits alone: a receiver that is on stays on. */
  lemma {:induction false} RunSwitchesNone(input: nat -> Byte, u: Uart, es: seq<Event>)
    requires Good(u) && PossibleRun(input, u, es)
    requires forall i :: 0 <= i < |es| ==> EventSwitchesNone(es[i])
    ensures SwitchesOf(Run(input, u, es).control) == SwitchesOf(u.control)
    decreases |es|
  {
    if es != [] {
      TakeKeepsGood(input, u, es[0]);
      TakeSwitchesNone(input, u, es[0]);
      RunSwitchesNone(input, Take(input, u, es[0]), es[1..]);
    }
  }

  /** The receive callback cannot switch the receiver: the state is still busy when it runs. */
  lemma {:induction false} BusyKeepsReceiver(u: Uart, actions: seq<Action>)
    requires AllFit(actions, |u.mem|) && u.rxState == STATE_BUSY_RX
    ensures PerformAll(u, actions).control.rxOn == u.control.rxOn
    decreases |actions|
  {
    if actions != [] {
      BusyKeepsReceiver(Perform(u, actions[0]), actions[1..]);
    }
  }

  lemma RxIrqKeepsReceiver(input: nat -> Byte, u: Uart, callback: seq<Action>)
    requires Good(u) && Possible(input, u, RxIrq(callback))
    ensures Take(input, u, RxIrq(callback)).control.rxOn == u.control.rxOn
  {
    if RxCompletes(u) {
      BusyKeepsReceiver(RxFinish(RxStore(input, u)), callback);
    }
  }

  // ---- The interrupt enables ----

  predicate TxMask(u: Uart) {
    u.control.txInt <==> u.gState == STATE_BUSY_TX
  }

  predicate RxMask(u: Uart) {
    u.control.rxInt <==> u.rxState == STATE_BUSY_RX
  }

  lemma {:induction false} ActionsKeepMasks(u: Uart, actions: seq<Action>)
    requires AllFit(actions, |u.mem|) && TxMask(u)
    ensures TxMask(PerformAll(u, actions))
    ensures RxMask(u) ==> RxMask(PerformAll(u, actions))
    decreases |actions|
  {
    if actions != [] {
      ActionsKeepMasks(Perform(u, actions[0]), actions[1..]);
    }
  }

  lemma TxIrqKeepsMasks(u: Uart, callback: seq<Action>) returns (v: Uart)
    requires TxInside(u) && (TxCompletes(u) ==> AllFit(callback, |u.mem|)) && TxMask(u) && RxMask(u)
    ensures v == TxHandler(u, callback) && TxMask(v) && RxMask(v)
  {
    v := TxHandler(u, callback);
    if TxCompletes(u) {
      ActionsKeepMasks(TxFinish(u), callback);
    }
  }

  lemma RxIrqKeepsMasks(input: nat -> Byte, u: Uart, callback: seq<Action>) returns (w: Uart)
    requires Good(u) && (RxCompletes(u) ==> AllFit(callback, |u.mem|)) && TxMask(u) && RxMask(u)
    ensures w == RxHandler(input, u, callback) && TxMask(w) && RxMask(w)
  {
    w := RxHandler(input, u, callback);
    if RxCompletes(u) {
      var v := RxFinish(RxStore(input, u));
      ActionsKeepMasks(v, callback);
      BusyRxStays(v, callback);
    }
  }

  lemma OneKeepsMasks(u: Uart, a: Action) returns (v: Uart)
    requires ActionFits(a, |u.mem|) && TxMask(u) && RxMask(u)
    ensures v == Perform(u, a) && TxMask(v) && RxMask(v)
  {
    v := Perform(u, a);
  }

  lemma TakeKeepsMasks(input: nat -> Byte, u: Uart, e: Event) returns (v: Uart)
    requires Good(u) && Possible(input, u, e) && TxMask(u) && RxMask(u)
    ensures v == Take(input, u, e) && TxMask(v) && RxMask(v)
  {
    match e
    case Do(a) => v := OneKeepsMasks(u, a);
    case TxIrq(callback) => v := TxIrqKeepsMasks(u, callback);
    case RxIrq(callback) => v := RxIrqKeepsMasks(input, u, callback);
    case Begin(ptr, size) => v := Begun(u, ptr, size);
    case Send => v := Sent(u);
  }

  /** In every reachable state each direction has its interrupt enabled exactly while it is busy. */
  lemma {:induction false} RunKeepsMasks(input: nat -> Byte, u: Uart, es: seq<Event>)
    requires Good(u) && PossibleRun(input, u, es) && TxMask(u) && RxMask(u)
    ensures TxMask(Run(input, u, es)) && RxMask(Run(input, u, es))
    decreases |es|
  {
    if es != [] {
      TakeKeepsGood(input, u, es[0]);
      var _ := TakeKeepsMasks(input, u, es[0]);
      RunKeepsMasks(input, Take(input, u, es[0]), es[1..]);
    }
  }

  // ---- Before UART_Init ----

  /** On a driver that was never initialised the transfer calls and the switches of both directions are
    * refused. */
  lemma NothingBeforeInit(u: Uart, a: Action)
    requires ActionFits(a, |u.mem|) && u.gState == STATE_RESET == u.rxState
    requires !a.TxReset? && !a.RxReset? && !a.Poke?
    ensures Perform(u, a) == u
  {
  }

  /** A store of the program, and nothing but that cell. */
  lemma PokeStores(u: Uart, ptr: nat, value: Byte)
    requires ptr < |u.mem|
    ensures Perform(u, Poke(ptr, value)) == u.(mem := u.mem[ptr := value])
  {
  }
}
