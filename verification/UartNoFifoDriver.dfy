/** The FIFO-less UART driver itself, its handle and registers updated step by step. */
module UartNoFifoDriver {
  import opened Memory
  import opened UartNoFifo

  class Handle {
    // The peripheral. `pauses(n)`: for how many polls the transmitter stays busy with byte n.
    const input: nat -> Byte
    const pauses: nat -> nat
    var control: Control
    var sent: seq<Byte>
    var busy: nat
    var taken: nat

    // The handle.
    var gState: State
    var rxState: State
    var tx: Xfer
    var rx: Xfer

    /** The locals of a blocking transmit that the main program is in. */
    var loop: Loop

    const mem: array<Byte>
    ghost var txDone: nat
    ghost var rxDone: nat

    ghost function View(): Uart
      reads this, mem
    {
      Uart(gState, rxState, tx, rx, control, mem[..], sent, taken, txDone, rxDone, loop)
    }

    /** A handle in the reset state, on a peripheral out of reset. */
    constructor (input: nat -> Byte, pauses: nat -> nat, mem: array<Byte>)
      ensures this.mem == mem && mem[..] == old(mem[..]) && this.input == input
      ensures gState == rxState == STATE_RESET && sent == [] && taken == 0 && Good(View())
    {
      this.input, this.pauses, this.mem := input, pauses, mem;
      control := Control(false, false, false, false, false, false);
      sent, busy, taken := [], 0, 0;
      tx, rx, loop := Xfer(0, 0, 0), Xfer(0, 0, 0), Loop(0, 0);
      txDone, rxDone := 0, 0;
      gState, rxState := STATE_RESET, STATE_RESET;
    }

    /** UART_Init: both directions become ready; a second call does nothing. */
    method Init()
      requires Good(View())
      modifies this`gState, this`rxState
      ensures View() == if old(gState) == STATE_RESET
                        then old(View()).(gState := STATE_READY, rxState := STATE_READY) else old(View())
      ensures Good(View())
    {
      if gState == STATE_RESET {
        gState := STATE_READY;
        rxState := STATE_READY;
      }
    }

    // ---- Register accesses ----

    method TxBusy() returns (b: bool)
      modifies this`busy
      ensures b == (old(busy) > 0)
      ensures busy == if b then old(busy) - 1 else 0
    {
      b := busy > 0;
      if b {
        busy := busy - 1;
      }
    }

    method WriteTxData(byte: Byte)
      modifies this`sent, this`busy
      ensures sent == old(sent) + [byte]
    {
      busy := pauses(|sent|);
      sent := sent + [byte];
    }

    method ReadRxData() returns (byte: Byte)
      modifies this`taken
      ensures byte == input(old(taken)) && taken == old(taken) + 1
    {
      byte := input(taken);
      taken := taken + 1;
    }

    // ---- Calls ----

    /** UART_Transmit: writes a byte whenever the transmitter is not busy, then waits. */
    method TransmitBlocking(ptr: nat, size: U16)
      requires ActionFits(Transmit(ptr, size), mem.Length)
      modifies this`sent, this`busy
      ensures View() == Perform(old(View()), Transmit(ptr, size))
      ensures sent == if gState == STATE_READY && ptr != NULL && size != 0
                      then old(sent) + mem[..][ptr..ptr + size] else old(sent)
    {
      if gState != STATE_READY {
        return;
      }
      if ptr == NULL || size == 0 {
        return;
      }
      var data: nat, left: nat := ptr, size;
      while left > 0
        invariant ptr <= data && data + left == ptr + size
        invariant sent == old(sent) + mem[..][ptr..data]
        decreases left, busy
      {
        var b := TxBusy();
        if !b {
          assert mem[..][ptr..data + 1] == mem[..][ptr..data] + [mem[data]];
          WriteTxData(mem[data]);
          data := data + 1;
          left := left - 1;
        }
      }
      var b := TxBusy();
      while b
        invariant sent == old(sent) + mem[..][ptr..ptr + size]
        decreases b, busy
      {
        b := TxBusy();
      }
    }

    /** The beginning of UART_Transmit in the main program, where interrupts cut into the loop. */
    method BeginTransmit(ptr: nat, size: U16)
      modifies this`loop
      ensures View() == Begun(old(View()), ptr, size)
      ensures loop == if gState == STATE_READY && ptr != NULL && size != 0 then Loop(ptr, size) else old(loop)
    {
      if gState != STATE_READY {
        return;
      }
      if ptr == NULL || size == 0 {
        return;
      }
      loop := Loop(ptr, size);
    }

    /** One turn of its loop. */
    method TurnTransmit()
      requires loop.left > 0 && loop.ptr < mem.Length
      modifies this`sent, this`busy, this`loop
      ensures View() == if old(busy) > 0 then old(View()) else Sent(old(View()))
      ensures old(busy) == 0 ==>
        && sent == old(sent) + [mem[old(loop).ptr]]
        && loop == Loop(old(loop).ptr + 1, old(loop).left - 1)
    {
      var b := TxBusy();
      if !b {
        WriteTxData(mem[loop.ptr]);
        loop := Loop(loop.ptr + 1, loop.left - 1);
      }
    }

    method StartTransmit(ptr: nat, size: U16)
      requires ActionFits(TransmitIT(ptr, size), mem.Length)
      modifies this`tx, this`gState, this`control
      ensures View() == Perform(old(View()), TransmitIT(ptr, size))
      ensures if old(gState) == STATE_READY && ptr != NULL && size != 0
              then tx == Xfer(ptr, size, size) && gState == STATE_BUSY_TX && control == old(control).(txInt := true)
              else View() == old(View())
    {
      if gState != STATE_READY {
        return;
      }
      if ptr == NULL || size == 0 {
        return;
      }
      tx := Xfer(ptr, size, size);
      gState := STATE_BUSY_TX;
      control := control.(txInt := true);
    }

    method StartReceive(ptr: nat, size: U16)
      requires ActionFits(ReceiveIT(ptr, size), mem.Length)
      modifies this`rx, this`rxState, this`control
      ensures View() == Perform(old(View()), ReceiveIT(ptr, size))
      ensures if old(rxState) == STATE_READY
              then rx == Xfer(ptr, size, size) && rxState == STATE_BUSY_RX && control == old(control).(rxInt := true)
              else View() == old(View())
    {
      if rxState == STATE_READY {
        rx := Xfer(ptr, size, size);
        rxState := STATE_BUSY_RX;
        control := control.(rxInt := true);
      }
    }

    method Act(a: Action)
      requires ActionFits(a, mem.Length)
      modifies this, mem
      ensures View() == Perform(old(View()), a)
      ensures a.TxEnable? || a.TxDisable? ==>
        View() == if old(gState) == STATE_READY
                  then old(View()).(control := old(control).(txOn := a.TxEnable?)) else old(View())
      ensures a.RxEnable? || a.RxDisable? ==>
        View() == if old(rxState) == STATE_READY
                  then old(View()).(control := old(control).(rxOn := a.RxEnable?)) else old(View())
      ensures a.TxReset? ==> View() == old(View()).(control := old(control).(txReset := true))
      ensures a.RxReset? ==> View() == old(View()).(control := old(control).(rxReset := true))
      ensures a.Poke? ==> View() == old(View()).(mem := old(mem[..])[a.ptr := a.value])
    {
      match a
      case TransmitIT(ptr, size) => StartTransmit(ptr, size);
      case Transmit(ptr, size) => TransmitBlocking(ptr, size);
      case ReceiveIT(ptr, size) => StartReceive(ptr, size);
      case TxEnable => if gState == STATE_READY { control := control.(txOn := true); }
      case TxDisable => if gState == STATE_READY { control := control.(txOn := false); }
      case TxReset => control := control.(txReset := true);
      case RxEnable => if rxState == STATE_READY { control := control.(rxOn := true); }
      case RxDisable => if rxState == STATE_READY { control := control.(rxOn := false); }
      case RxReset => control := control.(rxReset := true);
      case Poke(ptr, value) => mem[ptr] := value;
    }

    /** A completion callback: any calls and stores the user makes there. */
    method CpltCallback(actions: seq<Action>)
      requires AllFit(actions, mem.Length)
      modifies this, mem
      ensures View() == PerformAll(old(View()), actions)
    {
      for i := 0 to |actions|
        invariant PerformAll(View(), actions[i..]) == PerformAll(old(View()), actions)
      {
        assert actions[i..][1..] == actions[i + 1..];
        Act(actions[i]);
      }
    }

    // ---- Interrupts ----

    method StoreByte()
      requires rx.ptr < mem.Length
      modifies this`taken, mem
      ensures View() == RxStore(input, old(View()))
    {
      mem[rx.ptr] := ReadRxData();
    }

    /** The branch of the last byte: the state becomes ready after the callback. */
    method CompleteReceive(callback: seq<Action>)
      requires AllFit(callback, mem.Length)
      modifies this, mem
      ensures View() == PerformAll(RxFinish(old(View())), callback).(rxState := STATE_READY)
    {
      control := control.(rxInt := false);
      rxDone := rxDone + 1;
      CpltCallback(callback);
      rxState := STATE_READY;
    }

    /** The branch with nothing left to send: the state becomes ready before the callback. */
    method CompleteTransmit(callback: seq<Action>)
      requires AllFit(callback, mem.Length)
      modifies this, mem
      ensures View() == PerformAll(TxFinish(old(View())), callback)
    {
      control := control.(txInt := false);
      gState := STATE_READY;
      txDone := txDone + 1;
      CpltCallback(callback);
    }

    method RxNotEmptyIrqHandler(callback: seq<Action>)
      requires RxInside(View()) && (RxCompletes(View()) ==> AllFit(callback, mem.Length))
      modifies this, mem
      ensures View() == RxHandler(input, old(View()), callback)
      ensures old(rxState) != STATE_BUSY_RX ==> View() == old(View())
      ensures old(rxState) == STATE_BUSY_RX && old(rx).count != 1 ==>
        View() == old(View()).(mem := old(mem[..])[old(rx).ptr := input(old(taken))], taken := old(taken) + 1,
                               rx := Xfer(old(rx).ptr + 1, old(rx).size,
                                          if old(rx).count == 0 then 65535 else old(rx).count - 1))
      ensures old(rxState) == STATE_BUSY_RX && old(rx).count == 1 && callback == [] ==>
        View() == old(View()).(mem := old(mem[..])[old(rx).ptr := input(old(taken))], taken := old(taken) + 1,
                               rx := Xfer(old(rx).ptr + 1, old(rx).size, 0),
                               rxState := STATE_READY, rxDone := old(rxDone) + 1,
                               control := old(control).(rxInt := false))
    {
      if rxState == STATE_BUSY_RX {
        StoreByte();
        if rx.count == 1 {
          CompleteReceive(callback);
        }
        rx := rx.(ptr := rx.ptr + 1);
        rx := rx.(count := Decrement(rx.count));
      }
    }

    method TxNotFullIrqHandler(callback: seq<Action>)
      requires TxInside(View()) && (TxCompletes(View()) ==> AllFit(callback, mem.Length))
      modifies this, mem
      ensures View() == TxHandler(old(View()), callback)
      ensures old(gState) != STATE_BUSY_TX ==> View() == old(View())
      ensures old(gState) == STATE_BUSY_TX && old(tx).count != 0 ==>
        View() == old(View()).(sent := old(sent) + [old(mem[tx.ptr])],
                               tx := Xfer(old(tx).ptr + 1, old(tx).size, old(tx).count - 1))
      ensures old(gState) == STATE_BUSY_TX && old(tx).count == 0 && callback == [] ==>
        View() == old(View()).(tx := Xfer(old(tx).ptr + 1, old(tx).size, 65535),
                               gState := STATE_READY, txDone := old(txDone) + 1,
                               control := old(control).(txInt := false))
    {
      if gState == STATE_BUSY_TX {
        if tx.count == 0 {
          CompleteTransmit(callback);
        } else {
          WriteTxData(mem[tx.ptr]);
        }
        tx := tx.(ptr := tx.ptr + 1);
        tx := tx.(count := Decrement(tx.count));
      }
    }
  }
}
