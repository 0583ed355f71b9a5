/** Whole runs of the FIFO-less driver: every interleaving of transmit interrupts, receive
  * interrupts, calls and stores of the program, callbacks included. */
module UartNoFifoRuns {
  import opened Memory
  import opened UartNoFifo

  function TxIrqs(es: seq<Event>): nat
    decreases |es|
  {
    if es == [] then 0 else (if es[0].TxIrq? then 1 else 0) + TxIrqs(es[1..])
  }

  function RxIrqs(es: seq<Event>): nat
    decreases |es|
  {
    if es == [] then 0 else (if es[0].RxIrq? then 1 else 0) + RxIrqs(es[1..])
  }

  /** Turns of the main program's blocking transmit. */
  function Sends(es: seq<Event>): nat
    decreases |es|
  {
    if es == [] then 0 else (if es[0].Send? then 1 else 0) + Sends(es[1..])
  }

  // ---- All that is sent ----

  predicate TxBounded(u: Uart) {
    u.gState == STATE_BUSY_TX ==> u.tx.ptr + u.tx.count <= |u.mem|
  }

  /** What the transmit under way has yet to send. */
  function Pending(u: Uart): (bytes: seq<Byte>)
    requires TxBounded(u)
    ensures |bytes| == TxLeft(u)
  {
    if u.gState == STATE_BUSY_TX then u.mem[u.tx.ptr..u.tx.ptr + u.tx.count] else []
  }

  /** What an action adds to what is to be sent: the buffer of an accepted transmit, as it is then. */
  function Promise(u: Uart, a: Action): seq<Byte>
    requires ActionFits(a, |u.mem|)
  {
    if u.gState == STATE_READY && (a.TransmitIT? || a.Transmit?) && Sendable(a.ptr, a.size)
    then u.mem[a.ptr..a.ptr + a.size]
    else []
  }

  function Promises(u: Uart, actions: seq<Action>): seq<Byte>
    requires AllFit(actions, |u.mem|)
    decreases |actions|
  {
    if actions == [] then []
    else Promise(u, actions[0]) + Promises(Perform(u, actions[0]), actions[1..])
  }

  /** In a transmit callback: an interrupt transmit promises its buffer less the first byte. */
  function CallbackPromise(u: Uart, a: Action): seq<Byte>
    requires ActionFits(a, |u.mem|)
  {
    if a.TransmitIT? && Promise(u, a) != [] then Promise(u, a)[1..] else Promise(u, a)
  }

  function CallbackPromises(u: Uart, actions: seq<Action>): seq<Byte>
    requires AllFit(actions, |u.mem|)
    decreases |actions|
  {
    if actions == [] then []
    else CallbackPromise(u, actions[0]) + CallbackPromises(Perform(u, actions[0]), actions[1..])
  }

  function EventPromise(input: nat -> Byte, u: Uart, e: Event): seq<Byte>
    requires Good(u) && Possible(input, u, e)
  {
    match e
    case Do(a) => Promise(u, a)
    case TxIrq(callback) => if TxCompletes(u) then CallbackPromises(TxFinish(u), callback) else []
    case RxIrq(callback) => if RxCompletes(u) then Promises(RxFinish(RxStore(input, u)), callback) else []
    case Begin(ptr, size) => Promise(u, Transmit(ptr, size))
    case Send => []
  }

  function Promised(input: nat -> Byte, u: Uart, es: seq<Event>): seq<Byte>
    requires Good(u) && PossibleRun(input, u, es)
    decreases |es|
  {
    if es == [] then []
    else
      TakeKeepsGood(input, u, es[0]);
      EventPromise(input, u, es[0]) + Promised(input, Take(input, u, es[0]), es[1..])
  }

  lemma {:induction false} BusyPromisesNothing(u: Uart, actions: seq<Action>)
    requires u.gState == STATE_BUSY_TX && AllFit(actions, |u.mem|)
    ensures Promises(u, actions) == [] && CallbackPromises(u, actions) == []
    decreases |actions|
  {
    if actions != [] {
      BusyPromisesNothing(Perform(u, actions[0]), actions[1..]);
    }
  }

  /** What the main program's blocking transmit has yet to send. */
  function LoopPending(u: Uart): seq<Byte>
    requires u.loop.ptr + u.loop.left <= |u.mem|
  {
    u.mem[u.loop.ptr..u.loop.ptr + u.loop.left]
  }

  predicate Bounded(u: Uart) {
    TxBounded(u) && u.loop.ptr + u.loop.left <= |u.mem|
  }

  /** What has been sent, and what is still to be. */
  function Stream(u: Uart): seq<Byte>
    requires Bounded(u)
  {
    u.sent + Pending(u) + LoopPending(u)
  }

  /** An interrupt transmit and a blocking one are not both under way. */
  predicate Separate(u: Uart) {
    u.loop.left > 0 ==> u.gState == STATE_READY
  }

  /** The action does not start a transmit inside the main program's blocking one. */
  predicate Waits(u: Uart, a: Action) {
    u.loop.left > 0 ==> !((a.TransmitIT? || a.Transmit?) && Sendable(a.ptr, a.size))
  }

  predicate AllWait(u: Uart, actions: seq<Action>) {
    forall i :: 0 <= i < |actions| ==> Waits(u, actions[i])
  }

  lemma LoopStays(u: Uart, a: Action)
    requires CallGood(u) && Permitted(u, a)
    ensures Perform(u, a).loop == u.loop && LoopPending(Perform(u, a)) == LoopPending(u)
  {
  }

  lemma QuietConserves(u: Uart, a: Action) returns (v: Uart)
    requires CallGood(u) && Permitted(u, a) && u.loop.left > 0 && u.gState == STATE_READY && Waits(u, a)
    ensures v == Perform(u, a) && v.gState == STATE_READY && v.sent == u.sent && v.loop == u.loop
    ensures Promise(u, a) == [] && LoopPending(v) == LoopPending(u)
  {
    v := Perform(u, a);
    LoopStays(u, a);
  }

  lemma FreeConserves(u: Uart, a: Action) returns (v: Uart)
    requires CallGood(u) && Permitted(u, a)
    ensures v == Perform(u, a) && TxBounded(v) && v.loop == u.loop
    ensures v.sent + Pending(v) == u.sent + Pending(u) + Promise(u, a)
  {
    v := Perform(u, a);
    PerformKeeps(u, a);
  }

  lemma PerformConserves(u: Uart, a: Action) returns (v: Uart)
    requires CallGood(u) && Permitted(u, a) && Separate(u) && Waits(u, a)
    ensures v == Perform(u, a) && Bounded(v) && Separate(v) && v.loop == u.loop
    ensures Stream(v) == Stream(u) + Promise(u, a)
  {
    if u.loop.left > 0 {
      v := QuietConserves(u, a);
    } else {
      v := FreeConserves(u, a);
      assert LoopPending(u) == [] && LoopPending(v) == [];
    }
  }

  lemma {:induction false} ActionsConserve(u: Uart, actions: seq<Action>) returns (w: Uart)
    requires CallGood(u) && AllPermitted(u, actions) && Separate(u) && AllWait(u, actions)
    ensures w == PerformAll(u, actions) && Bounded(w) && Separate(w)
    ensures Stream(w) == Stream(u) + Promises(u, actions)
    decreases |actions|
  {
    w := u;
    if actions != [] {
      PerformKeeps(u, actions[0]);
      var v := PerformConserves(u, actions[0]);
      assert AllWait(v, actions[1..]);
      w := ActionsConserve(v, actions[1..]);
      Chained(Stream(v), Stream(u), Promise(u, actions[0]), Stream(w), Promises(v, actions[1..]));
    }
  }

  /** A transmit under way has the same bytes to go after any actions. */
  lemma {:induction false} PendingStays(u: Uart, actions: seq<Action>)
    requires CallGood(u) && AllPermitted(u, actions) && u.gState == STATE_BUSY_TX
    ensures TxBounded(PerformAll(u, actions)) && Pending(PerformAll(u, actions)) == Pending(u)
    decreases |actions|
  {
    if actions != [] {
      var v := Perform(u, actions[0]);
      PerformKeeps(u, actions[0]);
      assert Pending(v) == Pending(u);
      PendingStays(v, actions[1..]);
    }
  }

  lemma {:induction false} LoopPendingStays(u: Uart, actions: seq<Action>) returns (w: Uart)
    requires CallGood(u) && AllPermitted(u, actions)
    ensures w == PerformAll(u, actions) && w.loop == u.loop && LoopPending(w) == LoopPending(u)
    decreases |actions|
  {
    w := u;
    if actions != [] {
      PerformKeeps(u, actions[0]);
      LoopStays(u, actions[0]);
      w := LoopPendingStays(Perform(u, actions[0]), actions[1..]);
    }
  }

  lemma TxAdvanceDrops(u: Uart)
    requires TxBounded(u) && (u.gState == STATE_BUSY_TX ==> u.tx.count > 0)
    ensures TxBounded(TxAdvance(u))
    ensures Pending(TxAdvance(u)) == if u.gState == STATE_BUSY_TX then Pending(u)[1..] else []
  {
  }

  lemma Started(u: Uart, a: Action) returns (v: Uart)
    requires CallGood(u) && Permitted(u, a) && u.gState == STATE_READY && Perform(u, a).gState == STATE_BUSY_TX
    ensures v == Perform(u, a) && CallGood(v) && v.sent == u.sent && v.tx.count > 0
    ensures Pending(v)[1..] == CallbackPromise(u, a)
  {
    PerformKeeps(u, a);
    v := Perform(u, a);
  }

  /** An action of a transmit callback starts the next transmit. */
  lemma CallbackStartConserves(u: Uart, a: Action, rest: seq<Action>) returns (x: Uart)
    requires CallGood(u) && Permitted(u, a) && AllPermitted(Perform(u, a), rest) && u.gState == STATE_READY
    requires Perform(u, a).gState == STATE_BUSY_TX
    ensures x == TxAdvance(PerformAll(Perform(u, a), rest)) && TxBounded(x)
    ensures x.sent + Pending(x) == u.sent + CallbackPromise(u, a)
  {
    var v := Started(u, a);
    var w := ActionsLeaveTx(v, rest);
    TxAdvanceDrops(w);
    x := TxAdvance(w);
  }

  lemma QuietAction(u: Uart, a: Action)
    requires ActionFits(a, |u.mem|) && u.gState == STATE_READY && Perform(u, a).gState == STATE_READY
    ensures Perform(u, a).sent == u.sent + CallbackPromise(u, a)
  {
  }

  lemma {:induction false} CallbackConserves(u: Uart, actions: seq<Action>) returns (x: Uart)
    requires CallGood(u) && AllPermitted(u, actions) && u.gState == STATE_READY
    ensures x == TxAdvance(PerformAll(u, actions)) && TxBounded(x)
    ensures x.sent + Pending(x) == u.sent + CallbackPromises(u, actions)
    decreases |actions|
  {
    if actions == [] {
      x := TxAdvance(u);
    } else {
      var a, rest, v := actions[0], actions[1..], Perform(u, actions[0]);
      if v.gState == STATE_BUSY_TX {
        x := CallbackStartConserves(u, a, rest);
        BusyPromisesNothing(v, rest);
        assert CallbackPromises(u, actions) == CallbackPromise(u, a) + [];
      } else {
        PerformKeeps(u, a);
        QuietAction(u, a);
        x := CallbackConserves(v, rest);
        Chained(v.sent, u.sent, CallbackPromise(u, a), x.sent + Pending(x), CallbackPromises(v, rest));
      }
    }
  }

  lemma TxSends(u: Uart, callback: seq<Action>) returns (v: Uart)
    requires TxBounded(u) && !TxCompletes(u)
    ensures TxInside(u) && v == TxHandler(u, callback) && TxBounded(v) && v.loop == u.loop
    ensures v.sent + Pending(v) == u.sent + Pending(u)
  {
    v := TxHandler(u, callback);
    if u.gState == STATE_BUSY_TX {
      HeadTail(u.mem, u.tx.ptr, u.tx.count);
      assert u.sent + ([u.mem[u.tx.ptr]] + Pending(v)) == u.sent + [u.mem[u.tx.ptr]] + Pending(v);
    }
  }

  lemma HeadTail(mem: seq<Byte>, ptr: nat, n: nat)
    requires 0 < n && ptr + n <= |mem|
    ensures mem[ptr..ptr + n] == [mem[ptr]] + mem[ptr + 1..ptr + n]
  {
  }

  /** With an interrupt transmit under way there is no blocking one. */
  lemma TxConserves(u: Uart, callback: seq<Action>) returns (v: Uart)
    requires Good(u) && Separate(u) && (TxCompletes(u) ==> AllPermitted(TxFinish(u), callback))
    ensures v == TxHandler(u, callback) && Bounded(v) && Separate(v)
    ensures Stream(v) == Stream(u) + if TxCompletes(u) then CallbackPromises(TxFinish(u), callback) else []
  {
    if u.gState != STATE_BUSY_TX {
      v := u;
    } else if TxCompletes(u) {
      var w := LoopPendingStays(TxFinish(u), callback);
      v := CallbackConserves(TxFinish(u), callback);
      assert LoopPending(u) == [] && LoopPending(v) == [];
      assert Stream(u) == u.sent && Stream(v) == v.sent + Pending(v);
    } else {
      v := TxSends(u, callback);
      assert LoopPending(u) == [] && LoopPending(v) == [];
    }
  }

  lemma SameStream(u: Uart, v: Uart)
    requires Bounded(u) && v.gState == u.gState && v.tx == u.tx && v.mem == u.mem && v.sent == u.sent
    requires v.loop == u.loop
    ensures Bounded(v) && Stream(v) == Stream(u)
  {
  }

  lemma RxStoreConserves(input: nat -> Byte, u: Uart) returns (v: Uart)
    requires Good(u) && u.rxState == STATE_BUSY_RX
    ensures v == RxStore(input, u) && Bounded(v) && Stream(v) == Stream(u)
  {
    v := RxStore(input, u);
    assert Pending(v) == Pending(u) && LoopPending(v) == LoopPending(u);
  }

  lemma RxLastConserves(input: nat -> Byte, u: Uart, callback: seq<Action>) returns (w: Uart)
    requires Good(u) && RxCompletes(u) && AllPermitted(RxFinish(RxStore(input, u)), callback)
    requires Separate(u) && AllWait(u, callback)
    ensures w == RxHandler(input, u, callback) && Bounded(w) && Separate(w)
    ensures Stream(w) == Stream(u) + Promises(RxFinish(RxStore(input, u)), callback)
  {
    var v := RxStoreConserves(input, u);
    SameStream(v, RxFinish(v));
    assert AllWait(RxFinish(v), callback);
    var x := ActionsConserve(RxFinish(v), callback);
    w := RxAdvance(x.(rxState := STATE_READY));
    SameStream(x, w);
  }

  lemma RxConserves(input: nat -> Byte, u: Uart, callback: seq<Action>) returns (w: Uart)
    requires Good(u) && (RxCompletes(u) ==> AllPermitted(RxFinish(RxStore(input, u)), callback))
    requires Separate(u) && (RxCompletes(u) ==> AllWait(u, callback))
    ensures w == RxHandler(input, u, callback) && Bounded(w) && Separate(w)
    ensures Stream(w) == Stream(u) + if RxCompletes(u) then Promises(RxFinish(RxStore(input, u)), callback) else []
  {
    if RxCompletes(u) {
      w := RxLastConserves(input, u, callback);
    } else if u.rxState == STATE_BUSY_RX {
      var v := RxStoreConserves(input, u);
      w := RxAdvance(v);
      SameStream(v, w);
    } else {
      w := u;
    }
  }

  lemma BeginConserves(u: Uart, ptr: nat, size: U16) returns (v: Uart)
    requires CallGood(u) && u.loop.left == 0 && ptr + size <= |u.mem|
    ensures v == Begun(u, ptr, size) && Bounded(v) && Separate(v)
    ensures Stream(v) == Stream(u) + Promise(u, Transmit(ptr, size))
  {
    v := Begun(u, ptr, size);
    assert LoopPending(u) == [];
    if v.loop.left > 0 {
      assert Pending(u) == [] && Stream(u) == u.sent;
    }
  }

  lemma SendConserves(u: Uart) returns (v: Uart)
    requires CallGood(u) && u.loop.left > 0 && Separate(u)
    ensures v == Sent(u) && Bounded(v) && Separate(v) && Stream(v) == Stream(u)
  {
    v := Sent(u);
    HeadTail(u.mem, u.loop.ptr, u.loop.left);
    assert Pending(u) == [] && Pending(v) == [];
    assert u.sent + ([u.mem[u.loop.ptr]] + LoopPending(v)) == u.sent + [u.mem[u.loop.ptr]] + LoopPending(v);
  }

  /** No transmit is started inside the main program's blocking one. */
  predicate Apiece(u: Uart, e: Event) {
    match e
    case Do(a) => Waits(u, a)
    case TxIrq(callback) => true
    case RxIrq(callback) => RxCompletes(u) ==> AllWait(u, callback)
    case _ => true
  }

  predicate ApieceRun(input: nat -> Byte, u: Uart, es: seq<Event>)
    requires Good(u) && PossibleRun(input, u, es)
    decreases |es|
  {
    es != [] ==>
      && Apiece(u, es[0])
      && (TakeKeepsGood(input, u, es[0]); ApieceRun(input, Take(input, u, es[0]), es[1..]))
  }

  lemma StepConserves(input: nat -> Byte, u: Uart, e: Event) returns (v: Uart)
    requires Good(u) && Possible(input, u, e) && Separate(u) && Apiece(u, e)
    ensures v == Take(input, u, e) && Bounded(v) && Separate(v)
    ensures Stream(v) == Stream(u) + EventPromise(input, u, e)
  {
    match e
    case Do(a) => v := PerformConserves(u, a);
    case TxIrq(callback) => v := TxConserves(u, callback);
    case RxIrq(callback) => v := RxConserves(input, u, callback);
    case Begin(ptr, size) => v := BeginConserves(u, ptr, size);
    case Send => v := SendConserves(u);
  }

  /** Over any run in which no transmit is started inside the main program's blocking one: what has
    * been sent, and what is yet to be, is exactly what was sent and pending before, and then the
    * buffers of the accepted transmits in order, those started by a transmit callback less their
    * first byte. */
  lemma {:induction false} RunConserves(input: nat -> Byte, u: Uart, es: seq<Event>) returns (w: Uart)
    requires Good(u) && PossibleRun(input, u, es) && Separate(u) && ApieceRun(input, u, es)
    ensures w == Run(input, u, es) && Separate(w) && Stream(w) == Stream(u) + Promised(input, u, es)
    decreases |es|
  {
    w := u;
    if es != [] {
      TakeKeepsGood(input, u, es[0]);
      var v := StepConserves(input, u, es[0]);
      w := RunConserves(input, v, es[1..]);
      Chained(Stream(v), Stream(u), EventPromise(input, u, es[0]), Stream(w), Promised(input, v, es[1..]));
    }
  }

  /** So whenever neither transmit is under way, everything accepted, and nothing else, has been sent. */
  lemma ReadyMeansSent(input: nat -> Byte, u: Uart, es: seq<Event>) returns (w: Uart)
    requires Good(u) && PossibleRun(input, u, es) && Separate(u) && ApieceRun(input, u, es)
    requires Run(input, u, es).gState == STATE_READY && Run(input, u, es).loop.left == 0
    ensures w == Run(input, u, es) && w.sent == Stream(u) + Promised(input, u, es)
  {
    w := RunConserves(input, u, es);
  }

  // ---- Which callbacks lose a byte ----

  predicate Starts(a: Action) {
    a.TransmitIT? && Sendable(a.ptr, a.size)
  }

  predicate StartsNone(actions: seq<Action>) {
    forall i :: 0 <= i < |actions| ==> !Starts(actions[i])
  }

  /** Actions on a ready driver leave it ready exactly if none of them starts an interrupt transmit. */
  lemma {:induction false} ReadyExactly(u: Uart, actions: seq<Action>)
    requires AllFit(actions, |u.mem|) && u.gState == STATE_READY
    ensures var w := PerformAll(u, actions);
      && w.gState == (if StartsNone(actions) then STATE_READY else STATE_BUSY_TX)
      && w.control.txInt == (u.control.txInt || !StartsNone(actions))
      && w.txDone == u.txDone
    decreases |actions|
  {
    if actions != [] {
      var v := Perform(u, actions[0]);
      assert StartsNone(actions) <==> !Starts(actions[0]) && StartsNone(actions[1..]);
      if Starts(actions[0]) {
        BusyTxStays(v, actions[1..]);
      } else {
        ReadyExactly(v, actions[1..]);
      }
    }
  }

  /** Stepping the pointer once more loses exactly one byte of what such actions promise. */
  lemma {:induction false} OneByteLess(u: Uart, actions: seq<Action>)
    requires AllFit(actions, |u.mem|) && u.gState == STATE_READY
    ensures |CallbackPromises(u, actions)| == |Promises(u, actions)| - if StartsNone(actions) then 0 else 1
    decreases |actions|
  {
    if actions != [] {
      var v := Perform(u, actions[0]);
      assert StartsNone(actions) <==> !Starts(actions[0]) && StartsNone(actions[1..]);
      if Starts(actions[0]) {
        BusyPromisesNothing(v, actions[1..]);
      } else {
        OneByteLess(v, actions[1..]);
      }
    }
  }

  /** The completing interrupt leaves the driver ready exactly if the callback starts no transmit;
    * and exactly otherwise the bytes promised by the callback are one fewer than accepted. */
  lemma CallbackKeepsReady(u: Uart, callback: seq<Action>)
    requires Good(u) && TxCompletes(u) && AllPermitted(TxFinish(u), callback)
    ensures TxHandler(u, callback).gState == STATE_READY <==> StartsNone(callback)
    ensures CallbackPromises(TxFinish(u), callback) == Promises(TxFinish(u), callback) <==> StartsNone(callback)
  {
    ReadyExactly(TxFinish(u), callback);
    OneByteLess(TxFinish(u), callback);
    if StartsNone(callback) {
      SamePromises(TxFinish(u), callback);
    }
  }

  lemma {:induction false} SamePromises(u: Uart, actions: seq<Action>)
    requires AllFit(actions, |u.mem|) && StartsNone(actions)
    ensures CallbackPromises(u, actions) == Promises(u, actions)
    decreases |actions|
  {
    if actions != [] {
      SamePromises(Perform(u, actions[0]), actions[1..]);
    }
  }

  // ---- One transmit ----

  /** An interrupt transmit of `bytes` is under way with m of them sent. */
  predicate TxAt(u: Uart, bytes: seq<Byte>, m: nat) {
    && m <= |bytes| && u.gState == STATE_BUSY_TX && u.control.txInt
    && TxBounded(u) && u.tx.count == |bytes| - m && Pending(u) == bytes[m..]
  }

  /** Nothing but a transmit interrupt moves an interrupt transmit, and nothing else is sent meanwhile
    * but by a blocking transmit it has cut into. */
  lemma OthersLeaveTx(input: nat -> Byte, u: Uart, e: Event, bytes: seq<Byte>, m: nat) returns (v: Uart)
    requires Good(u) && Possible(input, u, e) && !e.TxIrq? && TxAt(u, bytes, m)
    ensures v == Take(input, u, e) && TxAt(v, bytes, m) && v.txDone == u.txDone
    ensures u.sent <= v.sent && |v.sent| == |u.sent| + if e.Send? then 1 else 0
  {
    v := Take(input, u, e);
    match e
    case Do(a) =>
      var w := ActionsLeaveTx(u, [a]);
      assert PerformAll(u, [a]) == Perform(u, a);
    case RxIrq(callback) => v := RxLeavesTx(input, u, callback);
    case _ =>
  }

  /** No action disturbs an interrupt transmit. */
  lemma ActionsLeaveTx(u: Uart, actions: seq<Action>) returns (w: Uart)
    requires CallGood(u) && AllPermitted(u, actions) && u.gState == STATE_BUSY_TX
    ensures w == PerformAll(u, actions) && w.gState == STATE_BUSY_TX && w.tx == u.tx
    ensures w.control.txInt == u.control.txInt && w.sent == u.sent && w.txDone == u.txDone
    ensures TxBounded(w) && Pending(w) == Pending(u)
  {
    BusyTxStays(u, actions);
    PendingStays(u, actions);
    w := PerformAll(u, actions);
  }

  lemma RxStoreLeavesTx(input: nat -> Byte, u: Uart) returns (x: Uart)
    requires Good(u) && u.gState == STATE_BUSY_TX && u.rxState == STATE_BUSY_RX
    ensures x == RxStore(input, u) && Pending(x) == Pending(u)
  {
    x := RxStore(input, u);
  }

  lemma RxLeavesTx(input: nat -> Byte, u: Uart, callback: seq<Action>) returns (v: Uart)
    requires Good(u) && u.gState == STATE_BUSY_TX
    requires RxCompletes(u) ==> AllPermitted(RxFinish(RxStore(input, u)), callback)
    ensures v == RxHandler(input, u, callback) && v.gState == STATE_BUSY_TX && v.tx == u.tx
    ensures v.control.txInt == u.control.txInt && v.sent == u.sent && v.txDone == u.txDone
    ensures TxBounded(v) && Pending(v) == Pending(u)
  {
    v := u;
    if u.rxState == STATE_BUSY_RX {
      var x := RxStoreLeavesTx(input, u);
      if RxCompletes(u) {
        var w := ActionsLeaveTx(RxFinish(x), callback);
        v := RxAdvance(w.(rxState := STATE_READY));
      } else {
        v := RxAdvance(x);
      }
    }
  }

  lemma TxIrqSends(u: Uart, callback: seq<Action>, bytes: seq<Byte>, m: nat) returns (v: Uart)
    requires TxAt(u, bytes, m) && m < |bytes|
    ensures TxInside(u) && v == TxHandler(u, callback) && TxAt(v, bytes, m + 1)
    ensures v.sent == u.sent + [bytes[m]] && v.txDone == u.txDone
  {
    v := TxHandler(u, callback);
    assert u.mem[u.tx.ptr] == Pending(u)[0] == bytes[m];
  }

  lemma TxStep(input: nat -> Byte, u: Uart, e: Event, bytes: seq<Byte>, m: nat) returns (v: Uart, n: nat)
    requires Good(u) && Possible(input, u, e) && TxAt(u, bytes, m) && (e.TxIrq? ==> m < |bytes|)
    ensures v == Take(input, u, e) && Good(v) && n == (if e.TxIrq? then m + 1 else m) && TxAt(v, bytes, n)
    ensures v.txDone == u.txDone && |v.sent| == |u.sent| + n - m + Sends([e])
    ensures |v.sent| == |u.sent| + n - m ==> v.sent == u.sent + bytes[m..n]
  {
    TakeKeepsGood(input, u, e);
    assert [e][1..] == [];
    if e.TxIrq? {
      v := TxIrqSends(u, e.callback, bytes, m);
      n := m + 1;
    } else {
      v := OthersLeaveTx(input, u, e, bytes, m);
      n := m;
    }
  }

  lemma SendsFirst(es: seq<Event>)
    requires es != []
    ensures Sends(es) == Sends([es[0]]) + Sends(es[1..])
  {
    assert [es[0]][1..] == [];
  }

  lemma Pieces(s: seq<Byte>, bytes: seq<Byte>, l: nat, m: nat, n: nat)
    requires l <= m <= n <= |bytes|
    ensures s + bytes[l..m] + bytes[m..n] == s + bytes[l..n]
  {
  }

  /** However the other events fall, t transmit interrupts send exactly the next t bytes of a transmit
    * under way and report nothing; they go out in one piece if and only if no turn of a blocking
    * transmit that it has cut into comes in between. */
  lemma {:induction false} TxDelivers(input: nat -> Byte, u: Uart, es: seq<Event>, bytes: seq<Byte>, m: nat)
    returns (v: Uart, n: nat)
    requires Good(u) && PossibleRun(input, u, es) && TxAt(u, bytes, m) && m + TxIrqs(es) <= |bytes|
    ensures v == Run(input, u, es) && n == m + TxIrqs(es) && TxAt(v, bytes, n) && v.txDone == u.txDone
    ensures |v.sent| == |u.sent| + n - m + Sends(es)
    ensures v.sent == u.sent + bytes[m..n] <==> Sends(es) == 0
    decreases |es|
  {
    v, n := u, m;
    if es != [] {
      var x, k := TxStep(input, u, es[0], bytes, m);
      SendsFirst(es);
      v, n := TxDelivers(input, x, es[1..], bytes, k);
      Pieces(u.sent, bytes, m, k, n);
    }
  }

  /** From an accepted UART_Transmit_IT of Size bytes, in every interleaving: after t <= Size
    * transmit interrupts exactly the first t bytes are sent, and nothing is reported. */
  lemma TransmitUnderWay(input: nat -> Byte, u: Uart, ptr: nat, size: U16, es: seq<Event>) returns (v: Uart)
    requires Good(u) && PossibleRun(input, u, [Do(TransmitIT(ptr, size))] + es)
    requires u.gState == STATE_READY && Sendable(ptr, size) && TxIrqs(es) <= size
    ensures v == Run(input, u, [Do(TransmitIT(ptr, size))] + es) && v.txDone == u.txDone
    ensures TxAt(v, u.mem[ptr..ptr + size], TxIrqs(es))
    ensures v.sent == u.sent + u.mem[ptr..ptr + TxIrqs(es)] <==> Sends(es) == 0
  {
    var run, bytes := [Do(TransmitIT(ptr, size))] + es, u.mem[ptr..ptr + size];
    TakeKeepsGood(input, u, run[0]);
    assert run[1..] == es;
    var n;
    v, n := TxDelivers(input, Perform(u, run[0].action), es, bytes, 0);
    assert bytes[0..n] == u.mem[ptr..ptr + TxIrqs(es)];
  }

  /** The transmit interrupt after the last byte's masks itself, becomes ready and reports once,
    * although the counter then wraps; so a transmit takes Size + 1 of them. It is ready and masked
    * when the handler returns exactly if the callback has started no further transmit. */
  lemma TransmitCompletes(u: Uart, callback: seq<Action>, bytes: seq<Byte>)
    requires Good(u) && TxAt(u, bytes, |bytes|) && AllPermitted(TxFinish(u), callback)
    ensures var w := TxHandler(u, callback);
      && w.txDone == u.txDone + 1
      && u.sent <= w.sent
      && (w.gState == STATE_READY <==> StartsNone(callback))
      && (w.control.txInt <==> !StartsNone(callback))
  {
    ReadyExactly(TxFinish(u), callback);
    OnlySends(TxFinish(u), callback);
  }

  lemma {:induction false} OnlySends(u: Uart, actions: seq<Action>)
    requires AllFit(actions, |u.mem|)
    ensures u.sent <= PerformAll(u, actions).sent
    decreases |actions|
  {
    if actions != [] {
      OnlySends(Perform(u, actions[0]), actions[1..]);
    }
  }

  // ---- One blocking transmit of the main program ----

  /** It has `bytes` to send and is done with k of them. */
  predicate LoopAt(u: Uart, bytes: seq<Byte>, k: nat) {
    && k <= |bytes| && u.loop.left == |bytes| - k && u.loop.ptr + u.loop.left <= |u.mem|
    && LoopPending(u) == bytes[k..]
  }

  lemma TxLeavesLoop(u: Uart, callback: seq<Action>) returns (v: Uart)
    requires Good(u) && (TxCompletes(u) ==> AllPermitted(TxFinish(u), callback))
    ensures v == TxHandler(u, callback)
    ensures v.loop == u.loop && LoopPending(v) == LoopPending(u) && u.sent <= v.sent
  {
    v := TxHandler(u, callback);
    if TxCompletes(u) {
      var w := LoopPendingStays(TxFinish(u), callback);
      OnlySends(TxFinish(u), callback);
    }
  }

  lemma RxLeavesLoop(input: nat -> Byte, u: Uart, callback: seq<Action>) returns (v: Uart)
    requires Good(u) && (RxCompletes(u) ==> AllPermitted(RxFinish(RxStore(input, u)), callback))
    ensures v == RxHandler(input, u, callback)
    ensures v.loop == u.loop && LoopPending(v) == LoopPending(u) && u.sent <= v.sent
  {
    v := RxHandler(input, u, callback);
    if u.rxState == STATE_BUSY_RX {
      var x := RxStore(input, u);
      assert LoopPending(x) == LoopPending(u);
      if RxCompletes(u) {
        var w := LoopPendingStays(RxFinish(x), callback);
        OnlySends(RxFinish(x), callback);
      }
    }
  }

  lemma ActionLeavesLoop(u: Uart, a: Action) returns (v: Uart)
    requires CallGood(u) && Permitted(u, a)
    ensures v == Perform(u, a)
    ensures v.loop == u.loop && LoopPending(v) == LoopPending(u) && u.sent <= v.sent
  {
    v := Perform(u, a);
    LoopStays(u, a);
  }

  lemma SendTurn(u: Uart, bytes: seq<Byte>, k: nat) returns (v: Uart)
    requires LoopAt(u, bytes, k) && k < |bytes|
    ensures v == Sent(u) && LoopAt(v, bytes, k + 1) && v.sent == u.sent + [bytes[k]]
  {
    v := Sent(u);
    assert u.mem[u.loop.ptr] == LoopPending(u)[0] == bytes[k];
    assert LoopPending(v) == LoopPending(u)[1..];
  }

  lemma LoopStep(input: nat -> Byte, u: Uart, e: Event, bytes: seq<Byte>, k: nat) returns (v: Uart, n: nat)
    requires Good(u) && Possible(input, u, e) && LoopAt(u, bytes, k) && !e.Begin?
    ensures v == Take(input, u, e) && n == k + Sends([e]) && LoopAt(v, bytes, n)
    ensures u.sent <= v.sent && (e.Send? ==> v.sent == u.sent + bytes[k..n])
  {
    n := if e.Send? then k + 1 else k;
    assert [e][1..] == [];
    match e {
      case Do(a) => v := ActionLeavesLoop(u, a);
      case TxIrq(callback) => v := TxLeavesLoop(u, callback);
      case RxIrq(callback) => v := RxLeavesLoop(input, u, callback);
      case Send => v := SendTurn(u, bytes, k);
    }
  }

  /** Bytes sent in a run by others than the blocking transmit. */
  function OthersSend(input: nat -> Byte, u: Uart, es: seq<Event>): int
    requires Good(u) && PossibleRun(input, u, es)
    decreases |es|
  {
    if es == [] then 0
    else
      TakeKeepsGood(input, u, es[0]);
      var v := Take(input, u, es[0]);
      (if es[0].Send? then 0 else |v.sent| - |u.sent|) + OthersSend(input, v, es[1..])
  }

  lemma LoopSums(
    us: seq<Byte>, xs: seq<Byte>, vs: seq<Byte>, bytes: seq<Byte>, k: nat, m: nat, n: nat, send: bool, rest: int)
    requires k <= m <= n <= |bytes| && us <= xs && rest >= 0 && |vs| == |xs| + n - m + rest
    requires if send then m == k + 1 && xs == us + bytes[k..m] else m == k
    requires rest == 0 ==> vs == xs + bytes[m..n]
    ensures var others := rest + if send then 0 else |xs| - |us|;
      && others >= 0 && |vs| == |us| + n - k + others
      && (others == 0 ==> vs == us + bytes[k..n])
  {
    Pieces(us, bytes, k, m, n);
  }

  lemma {:induction false} LoopRuns(input: nat -> Byte, u: Uart, es: seq<Event>, bytes: seq<Byte>, k: nat)
    returns (v: Uart, n: nat, others: int)
    requires Good(u) && PossibleRun(input, u, es) && LoopAt(u, bytes, k) && k + Sends(es) <= |bytes|
    requires forall i :: 0 <= i < |es| ==> !es[i].Begin?
    ensures v == Run(input, u, es) && n == k + Sends(es) && LoopAt(v, bytes, n)
    ensures others == OthersSend(input, u, es) >= 0 && |v.sent| == |u.sent| + n - k + others
    ensures others == 0 ==> v.sent == u.sent + bytes[k..n]
    decreases |es|
  {
    v, n, others := u, k, 0;
    if es != [] {
      TakeKeepsGood(input, u, es[0]);
      var x, m := LoopStep(input, u, es[0], bytes, k);
      SendsFirst(es);
      v, n, others := LoopRuns(input, x, es[1..], bytes, m);
      LoopSums(u.sent, x.sent, v.sent, bytes, k, m, n, es[0].Send?, others);
      others := others + if es[0].Send? then 0 else |x.sent| - |u.sent|;
    }
  }

  /** Nothing disturbs it: t of its turns send the next t bytes of its buffer, and they go out in one
    * piece if and only if no one else sends anything in between. */
  lemma LoopDelivers(input: nat -> Byte, u: Uart, es: seq<Event>, bytes: seq<Byte>, k: nat) returns (v: Uart, n: nat)
    requires Good(u) && PossibleRun(input, u, es) && LoopAt(u, bytes, k) && k + Sends(es) <= |bytes|
    requires forall i :: 0 <= i < |es| ==> !es[i].Begin?
    ensures v == Run(input, u, es) && n == k + Sends(es) && LoopAt(v, bytes, n)
    ensures v.sent == u.sent + bytes[k..n] <==> OthersSend(input, u, es) == 0
  {
    var others;
    v, n, others := LoopRuns(input, u, es, bytes, k);
  }

  // ---- Transmits started by callbacks ----

  /** Action i is the first to start a transmit. */
  predicate FirstStart(actions: seq<Action>, i: nat) {
    i < |actions| && Starts(actions[i]) && StartsNone(actions[..i])
  }

  lemma ExistsFirstStart(actions: seq<Action>) returns (i: nat)
    requires !StartsNone(actions)
    ensures FirstStart(actions, i)
  {
    i := 0;
    while !Starts(actions[i])
      invariant i < |actions| && StartsNone(actions[..i])
      decreases |actions| - i
    {
      i := i + 1;
    }
  }

  /** Memory and bytes sent just before action i. */
  lemma {:induction false} CallbackStarts(u: Uart, actions: seq<Action>, i: nat) returns (p: Uart)
    requires CallGood(u) && AllPermitted(u, actions) && u.gState == STATE_READY && FirstStart(actions, i)
    ensures AllFit(actions[..i], |u.mem|) && p == PerformAll(u, actions[..i]) && |p.mem| == |u.mem|
    ensures var a, w := actions[i], PerformAll(u, actions);
      && w.tx.ptr == a.ptr && w.tx.size == a.size
      && w.sent == p.sent && TxAt(w, p.mem[a.ptr..a.ptr + a.size], 0)
    decreases |actions|
  {
    var v := Perform(u, actions[0]);
    PerformKeeps(u, actions[0]);
    if i == 0 {
      p := u;
      BusyTxStays(v, actions[1..]);
      PendingStays(v, actions[1..]);
    } else {
      assert actions[1..][..i - 1] == actions[..i][1..];
      assert actions[..i][0] == actions[0];
      p := CallbackStarts(v, actions[1..], i - 1);
    }
  }

  /** The first transmit that a transmit callback starts loses exactly its first byte: what is under
    * way when the handler returns is the rest of its buffer, and (by TxDelivers) that is sent. */
  lemma CallbackTransmitLosesFirst(u: Uart, callback: seq<Action>) returns (i: nat, p: Uart)
    requires Good(u) && TxCompletes(u) && AllPermitted(TxFinish(u), callback) && !StartsNone(callback)
    ensures FirstStart(callback, i)
    ensures AllFit(callback[..i], |u.mem|) && p == PerformAll(TxFinish(u), callback[..i]) && |p.mem| == |u.mem|
    ensures var a := callback[i];
      && TxHandler(u, callback).sent == p.sent
      && TxAt(TxHandler(u, callback), p.mem[a.ptr + 1..a.ptr + a.size], 0)
  {
    i := ExistsFirstStart(callback);
    p := CallbackStarts(TxFinish(u), callback, i);
    var w, a := PerformAll(TxFinish(u), callback), callback[i];
    TxAdvanceDrops(w);
    HeadTail(p.mem, a.ptr, a.size);
  }

  /** The first transmit that a receive callback starts is under way with nothing sent yet, so (by
    * TxDelivers) it is delivered in full: for instance an echo of the bytes just received. */
  lemma RxCallbackTransmit(input: nat -> Byte, u: Uart, callback: seq<Action>) returns (i: nat, p: Uart)
    requires Good(u) && RxCompletes(u) && u.gState == STATE_READY
    requires AllPermitted(RxFinish(RxStore(input, u)), callback) && !StartsNone(callback)
    ensures FirstStart(callback, i)
    ensures AllFit(callback[..i], |u.mem|)
    ensures p == PerformAll(RxFinish(RxStore(input, u)), callback[..i]) && |p.mem| == |u.mem|
    ensures var a := callback[i];
      && RxHandler(input, u, callback).sent == p.sent
      && TxAt(RxHandler(input, u, callback), p.mem[a.ptr..a.ptr + a.size], 0)
  {
    i := ExistsFirstStart(callback);
    p := CallbackStarts(RxFinish(RxStore(input, u)), callback, i);
  }

  // ---- Receive ----

  /** A receive to ptr, begun after `from` bytes were read and `done` receives were reported, is under
    * way with m bytes stored. */
  predicate RxAt(input: nat -> Byte, u: Uart, from: nat, done: nat, ptr: nat, size: U16, m: nat) {
    && m < Rounds(size) && ptr + Rounds(size) <= |u.mem|
    && u.rxState == STATE_BUSY_RX && u.control.rxInt
    && u.rx == Xfer(ptr + m, size, if m == 0 then size else Rounds(size) - m)
    && u.taken == from + m && u.rxDone == done
    && u.mem[ptr..ptr + m] == Input(input, from, m)
  }

  /** No action touches the buffer of a receive under way. */
  lemma {:induction false} RxBufferStays(u: Uart, actions: seq<Action>)
    requires CallGood(u) && AllPermitted(u, actions) && u.rxState == STATE_BUSY_RX && u.control.rxInt
    ensures forall c :: RxStart(u) <= c < RxStart(u) + Rounds(u.rx.size) ==> PerformAll(u, actions).mem[c] == u.mem[c]
    decreases |actions|
  {
    if actions != [] {
      PerformKeeps(u, actions[0]);
      RxBufferStays(Perform(u, actions[0]), actions[1..]);
    }
  }

  lemma OthersLeaveRx(
    input: nat -> Byte, u: Uart, e: Event, from: nat, done: nat, ptr: nat, size: U16, m: nat)
    requires Good(u) && Possible(input, u, e) && !e.RxIrq? && RxAt(input, u, from, done, ptr, size, m)
    ensures RxAt(input, Take(input, u, e), from, done, ptr, size, m)
  {
    match e
    case Do(a) =>
      BusyRxStays(u, [a]);
      RxBufferStays(u, [a]);
      assert PerformAll(u, [a]) == Perform(u, a);
    case TxIrq(callback) =>
      if TxCompletes(u) {
        BusyRxStays(TxFinish(u), callback);
        RxBufferStays(TxFinish(u), callback);
      }
    case _ =>
  }

  lemma RxIrqStores(
    input: nat -> Byte, u: Uart, callback: seq<Action>, from: nat, done: nat, ptr: nat, size: U16, m: nat)
    requires RxAt(input, u, from, done, ptr, size, m) && m + 1 < Rounds(size)
    ensures RxAt(input, RxHandler(input, u, callback), from, done, ptr, size, m + 1)
  {
    ByteStored(u.mem, input, from, ptr, m);
  }

  /** The last byte: all are in the buffer when the callback is called; the interrupt is masked,
    * reported once, and the driver ready, whatever the callback tries to start. */
  lemma RxIrqCompletes(
    input: nat -> Byte, u: Uart, callback: seq<Action>, from: nat, done: nat, ptr: nat, size: U16, m: nat)
    requires RxAt(input, u, from, done, ptr, size, m) && m + 1 == Rounds(size) && AllFit(callback, |u.mem|)
    ensures var v, w := RxStore(input, u), RxHandler(input, u, callback);
      && v.mem[ptr..ptr + Rounds(size)] == Input(input, from, Rounds(size))
      && w.mem == PerformAll(RxFinish(v), callback).mem
      && w.rxState == STATE_READY && !w.control.rxInt && w.rxDone == done + 1 && w.taken == from + Rounds(size)
  {
    ByteStored(u.mem, input, from, ptr, m);
    BusyRxStays(RxFinish(RxStore(input, u)), callback);
  }

  lemma RxStep(input: nat -> Byte, u: Uart, e: Event, from: nat, done: nat, ptr: nat, size: U16, m: nat)
    returns (v: Uart, n: nat)
    requires Good(u) && Possible(input, u, e) && RxAt(input, u, from, done, ptr, size, m)
    requires m + (if e.RxIrq? then 1 else 0) < Rounds(size)
    ensures n == m + if e.RxIrq? then 1 else 0
    ensures v == Take(input, u, e) && Good(v) && RxAt(input, v, from, done, ptr, size, n)
  {
    TakeKeepsGood(input, u, e);
    v := Take(input, u, e);
    if e.RxIrq? {
      n := m + 1;
      RxIrqStores(input, u, e.callback, from, done, ptr, size, m);
    } else {
      n := m;
      OthersLeaveRx(input, u, e, from, done, ptr, size, m);
    }
  }

  lemma {:induction false} RxDelivers(
    input: nat -> Byte, u: Uart, es: seq<Event>, from: nat, done: nat, ptr: nat, size: U16, m: nat)
    returns (v: Uart, n: nat)
    requires Good(u) && PossibleRun(input, u, es)
    requires RxAt(input, u, from, done, ptr, size, m) && m + RxIrqs(es) < Rounds(size)
    ensures v == Run(input, u, es) && n == m + RxIrqs(es) && RxAt(input, v, from, done, ptr, size, n)
    decreases |es|
  {
    v, n := u, m;
    if es != [] {
      v, n := RxStep(input, u, es[0], from, done, ptr, size, m);
      v, n := RxDelivers(input, v, es[1..], from, done, ptr, size, n);
    }
  }

  lemma ReceiveUnderWay(input: nat -> Byte, u: Uart, ptr: nat, size: U16, es: seq<Event>) returns (v: Uart)
    requires Good(u) && u.rxState == STATE_READY && RxIrqs(es) < Rounds(size)
    requires PossibleRun(input, u, [Do(ReceiveIT(ptr, size))] + es)
    ensures v == Run(input, u, [Do(ReceiveIT(ptr, size))] + es)
    ensures RxAt(input, v, u.taken, u.rxDone, ptr, size, RxIrqs(es))
  {
    var run, n := [Do(ReceiveIT(ptr, size))] + es, 0;
    TakeKeepsGood(input, u, run[0]);
    assert run[1..] == es;
    v, n := RxDelivers(input, Perform(u, run[0].action), es, u.taken, u.rxDone, ptr, size, 0);
  }

  /** From an accepted UART_Receive_IT, in every interleaving: t receive interrupts store the next
    * t bytes read, in order, into the buffer; the last of Size (65536 for Size 0) masks the
    * interrupt, reports once and becomes ready. */
  lemma ReceiveCompletes(
    input: nat -> Byte, u: Uart, ptr: nat, size: U16, es: seq<Event>, callback: seq<Action>) returns (v: Uart)
    requires Good(u) && u.rxState == STATE_READY && RxIrqs(es) < Rounds(size)
    requires PossibleRun(input, u, [Do(ReceiveIT(ptr, size))] + es)
    ensures v == Run(input, u, [Do(ReceiveIT(ptr, size))] + es)
    ensures RxAt(input, v, u.taken, u.rxDone, ptr, size, RxIrqs(es))
    ensures RxIrqs(es) == Rounds(size) - 1 && AllFit(callback, |v.mem|) ==>
      var w := RxHandler(input, v, callback);
      && w.rxState == STATE_READY && !w.control.rxInt && w.rxDone == u.rxDone + 1
      && RxStore(input, v).mem[ptr..ptr + Rounds(size)] == Input(input, u.taken, Rounds(size))
  {
    v := ReceiveUnderWay(input, u, ptr, size, es);
    if RxIrqs(es) == Rounds(size) - 1 && AllFit(callback, |v.mem|) {
      RxIrqCompletes(input, v, callback, u.taken, u.rxDone, ptr, size, RxIrqs(es));
    }
  }

  // ---- Nothing else is stored to ----

  predicate Pokes(actions: seq<Action>, cell: nat) {
    exists i :: 0 <= i < |actions| && actions[i].Poke? && actions[i].ptr == cell
  }

  predicate EventPokes(e: Event, cell: nat) {
    match e
    case Do(a) => Pokes([a], cell)
    case TxIrq(callback) => Pokes(callback, cell)
    case RxIrq(callback) => Pokes(callback, cell)
    case _ => false
  }

  lemma {:induction false} ActionsLeave(u: Uart, actions: seq<Action>, cell: nat)
    requires AllFit(actions, |u.mem|) && cell < |u.mem| && !Pokes(actions, cell)
    ensures PerformAll(u, actions).mem[cell] == u.mem[cell]
    decreases |actions|
  {
    if actions != [] {
      assert !(actions[0].Poke? && actions[0].ptr == cell);
      assert forall i :: 0 <= i < |actions| - 1 ==> actions[1..][i] == actions[i + 1];
      ActionsLeave(Perform(u, actions[0]), actions[1..], cell);
    }
  }

  /** A cell that the program does not store to keeps its value in every event but the receive
    * interrupt whose byte it is for. */
  lemma OnlyReceivesStore(input: nat -> Byte, u: Uart, e: Event, cell: nat)
    requires Good(u) && Possible(input, u, e) && cell < |u.mem| && !EventPokes(e, cell)
    ensures Take(input, u, e).mem[cell] ==
      if e.RxIrq? && u.rxState == STATE_BUSY_RX && u.rx.ptr == cell then input(u.taken) else u.mem[cell]
  {
    match e
    case Do(a) =>
      ActionsLeave(u, [a], cell);
      assert PerformAll(u, [a]) == Perform(u, a);
    case TxIrq(callback) =>
      if TxCompletes(u) {
        ActionsLeave(TxFinish(u), callback, cell);
      }
    case RxIrq(callback) =>
      if RxCompletes(u) {
        ActionsLeave(RxFinish(RxStore(input, u)), callback, cell);
      }
    case _ =>
  }

  /** So as long as a receive is under way, cells outside its buffer keep their values. */
  lemma {:induction false} OutsideStays(
    input: nat -> Byte, u: Uart, es: seq<Event>, from: nat, done: nat, ptr: nat, size: U16, m: nat, cell: nat)
    requires Good(u) && PossibleRun(input, u, es)
    requires RxAt(input, u, from, done, ptr, size, m) && m + RxIrqs(es) < Rounds(size)
    requires cell < |u.mem| && !(ptr <= cell < ptr + Rounds(size))
    requires forall i :: 0 <= i < |es| ==> !EventPokes(es[i], cell)
    ensures Run(input, u, es).mem[cell] == u.mem[cell]
    decreases |es|
  {
    if es != [] {
      OnlyReceivesStore(input, u, es[0], cell);
      var v, n := RxStep(input, u, es[0], from, done, ptr, size, m);
      OutsideStays(input, v, es[1..], from, done, ptr, size, n, cell);
    }
  }

  // ---- Failing inputs ----

  /** A transmit callback that starts the transmit of two bytes: one is sent. */
  lemma CallbackExample(input: nat -> Byte, u: Uart)
    requires Good(u) && TxCompletes(u) && u.rxState == STATE_READY && |u.mem| >= 3
    ensures var callback := [TransmitIT(1, 2)];
      && AllPermitted(TxFinish(u), callback)
      && var v := TxHandler(u, callback);
      && Good(v) && TxAt(v, [u.mem[2]], 0) && v.sent == u.sent
      && TxHandler(v, []).sent == u.sent + [u.mem[2]] && TxCompletes(TxHandler(v, []))
  {
    var callback := [TransmitIT(1, 2)];
    assert Perform(TxFinish(u), callback[0]) == PerformAll(TxFinish(u), callback);
    assert AllPermitted(TxFinish(u), callback);
    TxKeepsGood(u, callback);
    assert Pending(TxHandler(u, callback)) == [u.mem[2]];
  }

  /** A receive callback that starts the next receive: the call is refused, nothing is under way. */
  lemma ReceiveAgainExample(input: nat -> Byte, u: Uart)
    requires Good(u) && RxCompletes(u) && |u.mem| >= 2
    ensures var w := RxHandler(input, u, [ReceiveIT(1, 1)]);
      w.rxState == STATE_READY && !w.control.rxInt
  {
    assert AllFit([ReceiveIT(1, 1)], |u.mem|);
    BusyRxStays(RxFinish(RxStore(input, u)), [ReceiveIT(1, 1)]);
  }

  /** Inside a blocking transmit of the main program, a receive callback starts the transmit of one
    * byte: it is accepted, and the byte goes out before the rest of the blocking one's. */
  lemma MixExample(input: nat -> Byte, u: Uart, p: nat) returns (v: Uart, w: Uart)
    requires Good(u) && u.loop.left > 0 && u.gState == STATE_READY && RxCompletes(u) && NULL < p < |u.mem|
    ensures Possible(input, u, RxIrq([TransmitIT(p, 1)])) && v == Take(input, u, RxIrq([TransmitIT(p, 1)]))
    ensures Good(v) && Possible(input, v, TxIrq([])) && w == Take(input, v, TxIrq([]))
    ensures w.sent == u.sent + [RxStore(input, u).mem[p]] && w.loop == u.loop
  {
    var callback, x := [TransmitIT(p, 1)], RxFinish(RxStore(input, u));
    assert Permitted(x, callback[0]) && callback[1..] == [];
    assert AllPermitted(x, callback) && PerformAll(x, callback) == Perform(x, callback[0]);
    TakeKeepsGood(input, u, RxIrq(callback));
    v := Take(input, u, RxIrq(callback));
    w := Take(input, v, TxIrq([]));
  }

  /** A receive of no bytes: after one receive interrupt 65535 are left and it is still under way. */
  lemma ReceiveZeroExample(input: nat -> Byte, u: Uart, ptr: nat)
    requires u.rxState == STATE_READY && ptr + 0x1_0000 <= |u.mem|
    ensures var v := RxHandler(input, Perform(u, ReceiveIT(ptr, 0)), []);
      v.rx.count == 65535 && v.rxState == STATE_BUSY_RX && v.mem[ptr] == input(u.taken) && v.control.rxInt
  {
  }
}
