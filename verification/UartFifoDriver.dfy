/** The FIFO UART driver itself, its handle and registers updated step by step. */
module UartFifoDriver {
  import opened Memory
  import opened UartFifo

  class Handle {
    // The peripheral.
    const line: Line
    const input: nat -> Byte
    var fifo: Fifo
    var taken: nat
    var mie: set<nat>

    // The handle.
    var baudRate: nat
    var gState: State
    var rxState: State
    var tx: Xfer
    var rx: Xfer

    const mem: array<Byte>

    ghost function View(): Uart
      reads this, mem
    {
      Uart(gState, rxState, tx, rx, mie, fifo, taken, mem[..])
    }

    /** A handle in the reset state, on a peripheral out of reset. */
    constructor (line: Line, input: nat -> Byte, baudRate: nat, mem: array<Byte>)
      ensures this.mem == mem && this.baudRate == baudRate && this.line == line && this.input == input
      ensures gState == rxState == STATE_RESET && mie == {}
      ensures Consistent(fifo) && fifo.accepted == [] && fifo.room == CAPACITY && fifo.lost == 0
      ensures mem[..] == old(mem[..])
    {
      this.line, this.input, this.baudRate, this.mem := line, input, baudRate, mem;
      fifo, taken, mie := Fifo(0, [], CAPACITY, 0), 0, {};
      tx, rx := Xfer(0, 0, 0), Xfer(0, 0, 0);
      gState, rxState := STATE_RESET, STATE_RESET;
    }

    /** UART_Init: both directions become ready; a second call does nothing. */
    method Init()
      modifies this`gState, this`rxState
      ensures View() == if old(gState) == STATE_RESET
                        then old(View()).(gState := STATE_READY, rxState := STATE_READY) else old(View())
    {
      if gState == STATE_RESET {
        gState := STATE_READY;
        rxState := STATE_READY;
      }
    }

    // ---- Register accesses ----

    method WriteTxData(byte: Byte)
      modifies this`fifo
      ensures fifo == Put(line, old(fifo), byte)
    {
      fifo := Put(line, fifo, byte);
    }

    method ReadFreeSpaces() returns (free: nat)
      modifies this`fifo
      ensures fifo == Tick(line, old(fifo)) && free == Reported(line, old(fifo))
    {
      free := Reported(line, fifo);
      fifo := Tick(line, fifo);
    }

    method ReadRxData() returns (byte: Byte)
      modifies this`taken
      ensures byte == input(old(taken)) && taken == old(taken) + 1
    {
      byte := input(taken);
      taken := taken + 1;
    }

    method Store(ptr: nat)
      requires ptr < mem.Length
      modifies this`taken, mem
      ensures mem[..] == old(mem[..])[ptr := input(old(taken))] && taken == old(taken) + 1
    {
      mem[ptr] := ReadRxData();
    }

    // ---- Blocking transmit ----

    /** The inner loop: as many bytes as there was room for. */
    method WriteSome(ptr: nat, free: nat, size: nat) returns (written: nat)
      requires ptr + size <= mem.Length
      modifies this`fifo
      ensures written == Least(free, size)
      ensures fifo == PutRange(line, old(fifo), mem[..], ptr, written)
    {
      written := 0;
      while free - written > 0 && size - written > 0
        invariant 0 <= written <= Least(free, size)
        invariant fifo == PutRange(line, old(fifo), mem[..], ptr, written)
      {
        WriteTxData(mem[ptr + written]);
        written := written + 1;
      }
    }

    /** A turn of the outer loop: poll the free space, then write. */
    method TakeTurn(ptr: nat, size: nat) returns (written: nat)
      requires ptr + size <= mem.Length
      modifies this`fifo
      ensures written == Chunk(line, old(fifo), size)
      ensures fifo == Turn(line, old(fifo), mem[..], ptr, size)
      ensures var room := Least(old(fifo).room + line.takes(old(fifo).clock), 15);
        written == Least(Least(line.reports(old(fifo).clock), room), size)
    {
      var free := ReadFreeSpaces();
      written := WriteSome(ptr, free, size);
    }

    /** UART_Transmit, with a line that makes room for the buffer within `turns` polls. */
    method Transmit(ptr: nat, size: U16, ghost turns: nat, ghost end: Fifo)
      requires ptr + size <= mem.Length
      requires Ends(line, fifo, mem[..], ptr, size, turns, end)
      modifies this`fifo
      ensures fifo == end
      ensures fifo.accepted == old(fifo).accepted + mem[..][ptr..ptr + size] && fifo.lost == old(fifo).lost
    {
      BlockingDelivers(line, fifo, mem[..], ptr, size, turns, end);
      ghost var all := mem[..];
      var data: nat, left: nat := ptr, size;
      ghost var n := turns;
      while left > 0
        invariant data + left <= |all| && mem[..] == all
        invariant Ends(line, fifo, all, data, left, n, end)
        decreases n
      {
        ghost var before := fifo;
        var written := TakeTurn(data, left);
        EndsNext(line, before, all, data, left, n, end, written, fifo);
        data := data + written;
        left := left - written;
        n := n - 1;
      }
    }

    // ---- Interrupt transfers ----

    method TransmitIT(ptr: nat, size: U16)
      modifies this`tx, this`gState, this`mie
      ensures View() == StartTransmit(old(View()), baudRate, ptr, size)
      ensures if old(gState) == STATE_READY
              then tx == Xfer(ptr, size, size) && gState == STATE_BUSY_TX
                && mie == old(mie) + {if baudRate > 115200 then 21 else 19}
              else View() == old(View())
    {
      if gState == STATE_READY {
        tx := Xfer(ptr, size, size);
        gState := STATE_BUSY_TX;
        if baudRate > IT_FIFO_THRESHOLD {
          mie := mie + {TX_NOT_FULL};
        } else {
          mie := mie + {TX_HALF_EMPTY};
        }
      }
    }

    method ReceiveIT(ptr: nat, size: U16)
      modifies this`rx, this`rxState, this`mie
      ensures View() == StartReceive(old(View()), baudRate, ptr, size)
      ensures if old(rxState) == STATE_READY
              then rx == Xfer(ptr, size, size) && rxState == STATE_BUSY_RX
                && mie == old(mie) + {if baudRate > 115200 then 20 else 18}
              else View() == old(View())
    {
      if rxState == STATE_READY {
        rx := Xfer(ptr, size, size);
        rxState := STATE_BUSY_RX;
        if baudRate > IT_FIFO_THRESHOLD {
          mie := mie + {RX_NOT_EMPTY};
        } else {
          mie := mie + {RX_HALF_FULL};
        }
      }
    }

    /** The loop body of the half-empty handler. */
    method SendOne()
      requires tx.ptr < mem.Length
      modifies this`fifo, this`tx, this`mie, this`gState
      ensures fifo == Put(line, old(fifo), mem[old(tx).ptr])
      ensures tx == Xfer(old(tx).ptr + 1, old(tx).size, Decrement(old(tx).count))
      ensures mie == if tx.count == 0 then old(mie) - {TX_HALF_EMPTY} else old(mie)
      ensures gState == if tx.count == 0 then STATE_READY else old(gState)
    {
      WriteTxData(mem[tx.ptr]);
      tx := tx.(ptr := tx.ptr + 1);
      tx := tx.(count := Decrement(tx.count));
      if tx.count == 0 {
        mie := mie - {TX_HALF_EMPTY};
        gState := STATE_READY;
      }
    }

    /** Its loop. */
    method SendSome(n: nat)
      requires n <= tx.count && tx.ptr + n <= mem.Length && gState == STATE_BUSY_TX
      modifies this`fifo, this`tx, this`mie, this`gState
      ensures tx == Xfer(old(tx).ptr + n, old(tx).size, old(tx).count - n)
      ensures fifo == PutRange(line, old(fifo), mem[..], old(tx).ptr, n)
      ensures mie == if n > 0 && old(tx).count == n then old(mie) - {TX_HALF_EMPTY} else old(mie)
      ensures gState == if n > 0 && old(tx).count == n then STATE_READY else STATE_BUSY_TX
    {
      ghost var start := tx;
      for i := 0 to n
        invariant tx == Xfer(start.ptr + i, start.size, start.count - i)
        invariant fifo == PutRange(line, old(fifo), mem[..], start.ptr, i)
        invariant mie == if i > 0 && start.count == i then old(mie) - {TX_HALF_EMPTY} else old(mie)
        invariant gState == if i > 0 && start.count == i then STATE_READY else STATE_BUSY_TX
      {
        SendOne();
      }
    }

    method TxHalfEmptyIrqHandler()
      requires gState == STATE_BUSY_TX ==> tx.ptr + Least(tx.count, HALF_FIFO_LEN) <= mem.Length
      modifies this`fifo, this`tx, this`mie, this`gState
      ensures View() == HalfEmpty(line, old(View()))
      ensures if old(gState) != STATE_BUSY_TX then View() == old(View())
              else
                var n := Least(old(tx).count, 8);
                && fifo == PutRange(line, old(fifo), mem[..], old(tx).ptr, n)
                && tx == Xfer(old(tx).ptr + n, old(tx).size, old(tx).count - n)
                && mie == (if 0 < old(tx).count <= 8 then old(mie) - {19} else old(mie))
                && gState == (if 0 < old(tx).count <= 8 then STATE_READY else STATE_BUSY_TX)
    {
      if gState == STATE_BUSY_TX {
        var dataToProcess: nat;
        if tx.count < HALF_FIFO_LEN {
          dataToProcess := tx.count;
        } else {
          dataToProcess := HALF_FIFO_LEN;
        }
        SendSome(dataToProcess);
      }
    }

    method TxNotFullIrqHandler()
      requires gState == STATE_BUSY_TX ==> tx.ptr < mem.Length
      modifies this`fifo, this`tx, this`mie, this`gState
      ensures View() == NotFull(line, old(View()))
      ensures if old(gState) != STATE_BUSY_TX then View() == old(View())
              else
                && fifo == Put(line, old(fifo), mem[old(tx).ptr])
                && tx == Xfer(old(tx).ptr + 1, old(tx).size, if old(tx).count == 0 then 65535 else old(tx).count - 1)
                && mie == (if old(tx).count == 1 then old(mie) - {21} else old(mie))
                && gState == (if old(tx).count == 1 then STATE_READY else STATE_BUSY_TX)
    {
      if gState == STATE_BUSY_TX {
        WriteTxData(mem[tx.ptr]);
        tx := tx.(ptr := tx.ptr + 1);
        tx := tx.(count := Decrement(tx.count));
        if tx.count == 0 {
          mie := mie - {TX_NOT_FULL};
          gState := STATE_READY;
        }
      }
    }

    /** The loop body of the half-full handler. */
    method ReceiveOne()
      requires rx.ptr < mem.Length
      modifies this`taken, this`rx, this`mie, this`rxState, mem
      ensures mem[..] == old(mem[..])[old(rx).ptr := input(old(taken))] && taken == old(taken) + 1
      ensures rx == Xfer(old(rx).ptr + 1, old(rx).size, Decrement(old(rx).count))
      ensures mie == if rx.count == 0 then old(mie) - {RX_HALF_FULL} else old(mie)
      ensures rxState == if rx.count == 0 then STATE_READY else old(rxState)
    {
      Store(rx.ptr);
      rx := rx.(ptr := rx.ptr + 1);
      rx := rx.(count := Decrement(rx.count));
      if rx.count == 0 {
        mie := mie - {RX_HALF_FULL};
        rxState := STATE_READY;
      }
    }

    /** Its loop. */
    method ReceiveSome(n: nat)
      requires n <= rx.count && rx.ptr + n <= mem.Length && rxState == STATE_BUSY_RX
      modifies this`taken, this`rx, this`mie, this`rxState, mem
      ensures rx == Xfer(old(rx).ptr + n, old(rx).size, old(rx).count - n) && taken == old(taken) + n
      ensures mem[..] == Overwrite(old(mem[..]), old(rx).ptr, Input(input, old(taken), n))
      ensures mie == if n > 0 && old(rx).count == n then old(mie) - {RX_HALF_FULL} else old(mie)
      ensures rxState == if n > 0 && old(rx).count == n then STATE_READY else STATE_BUSY_RX
    {
      ghost var start, from := rx, taken;
      for i := 0 to n
        invariant rx == Xfer(start.ptr + i, start.size, start.count - i) && taken == from + i
        invariant mem[..] == Overwrite(old(mem[..]), start.ptr, Input(input, from, i))
        invariant mie == if i > 0 && start.count == i then old(mie) - {RX_HALF_FULL} else old(mie)
        invariant rxState == if i > 0 && start.count == i then STATE_READY else STATE_BUSY_RX
      {
        InputMore(old(mem[..]), input, from, start.ptr, i);
        ReceiveOne();
      }
    }

    method RxHalfFullIrqHandler()
      requires rxState == STATE_BUSY_RX ==> rx.ptr + Least(rx.count, HALF_FIFO_LEN) <= mem.Length
      modifies this`taken, this`rx, this`mie, this`rxState, mem
      ensures View() == HalfFull(input, old(View()))
      ensures if old(rxState) != STATE_BUSY_RX then View() == old(View())
              else
                var n := Least(old(rx).count, 8);
                && mem[..] == Overwrite(old(mem[..]), old(rx).ptr, Input(input, old(taken), n))
                && taken == old(taken) + n
                && rx == Xfer(old(rx).ptr + n, old(rx).size, old(rx).count - n)
                && mie == (if 0 < old(rx).count <= 8 then old(mie) - {18} else old(mie))
                && rxState == (if 0 < old(rx).count <= 8 then STATE_READY else STATE_BUSY_RX)
    {
      if rxState == STATE_BUSY_RX {
        var dataToProcess: nat;
        if rx.count < HALF_FIFO_LEN {
          dataToProcess := rx.count;
        } else {
          dataToProcess := HALF_FIFO_LEN;
        }
        ReceiveSome(dataToProcess);
      }
    }

    method RxNotEmptyIrqHandler()
      requires rxState == STATE_BUSY_RX ==> rx.ptr < mem.Length
      modifies this`taken, this`rx, this`mie, this`rxState, mem
      ensures View() == NotEmpty(input, old(View()))
      ensures if old(rxState) != STATE_BUSY_RX then View() == old(View())
              else
                && mem[..] == old(mem[..])[old(rx).ptr := input(old(taken))] && taken == old(taken) + 1
                && rx == Xfer(old(rx).ptr + 1, old(rx).size, if old(rx).count == 0 then 65535 else old(rx).count - 1)
                && mie == (if old(rx).count == 1 then old(mie) - {20} else old(mie))
                && rxState == STATE_BUSY_RX
    {
      if rxState == STATE_BUSY_RX {
        InputMore(mem[..], input, taken, rx.ptr, 0);
        assert Overwrite(mem[..], rx.ptr, Input(input, taken, 0)) == mem[..];
        Store(rx.ptr);
        rx := rx.(ptr := rx.ptr + 1);
        rx := rx.(count := Decrement(rx.count));
        if rx.count == 0 {
          mie := mie - {RX_NOT_EMPTY};
          var _ := rxState == STATE_READY;
        }
      }
    }
  }
}
