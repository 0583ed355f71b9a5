/** The driver itself: the handle, the registers of the core and the functions of i2c_master.c,
  * updating them step by step. */
module I2cMaster {
  import opened Memory
  import opened I2cBus
  import opened I2cDriver
  import opened I2cProgress
  import opened I2cRuns
  import opened I2cCalls

  class Handle {
    // The core: its registers, and the device behind it.
    const slave: Slave
    var ctr: bv8
    var trxr: bv8
    var log: seq<Command>
    var iacks: nat

    // The handle.
    var state: State
    var tx: Job<TxPhase>
    var rx: Job<RxPhase>

    // Data memory, and what happened to it.
    const mem: array<bv8>
    ghost var stores: seq<nat>
    ghost var accepted: seq<Action>
    ghost var reports: seq<Direction>

    predicate Valid()
      reads this
    {
      trxr == Txr(log)
    }

    ghost function View(): Driver
      reads this, mem
    {
      Driver(state, ctr, tx, rx, mem[..], log, iacks, stores, accepted, reports)
    }

    /** I2C_Init on a core out of reset. */
    constructor Init(slave: Slave, mem: array<bv8>)
      ensures Valid() && Initial(View()) && iacks == 0
      ensures this.slave == slave && this.mem == mem && mem[..] == old(mem[..])
    {
      this.slave, this.mem := slave, mem;
      ctr, trxr, log, iacks := EN, 0, [], 0;
      tx, rx := Job(TX_READY, 0, 0, 0), Job(RX_READY, 0, 0, 0);
      stores, accepted, reports := [], [], [];
      state := STATE_READY;
    }

    // ---- Register accesses ----

    /** CSR = IACK: clears the interrupt flag and is no bus command. */
    method AcknowledgeInterrupt()
      requires Valid()
      modifies this`iacks
      ensures Valid() && View() == Acked(old(View()))
    {
      iacks := iacks + 1;
    }

    /** CSR = flags, a bus command. */
    method WriteCsr(flags: bv8)
      requires Valid()
      modifies this`log
      ensures Valid() && View() == Issue(old(View()), flags)
    {
      log := log + [Command(trxr, flags)];
    }

    method AckReceived() returns (ack: bool)
      ensures ack == !Nacked(slave, log)
    {
      var csr := Status(slave, log);
      ack := csr & RXACK == 0;
    }

    method ReadTrxr() returns (byte: bv8)
      ensures byte == slave(log).data
    {
      byte := slave(log).data;
    }

    method SendByteIT(byte: bv8, flags: bv8)
      modifies this`log, this`trxr
      ensures Valid() && View() == SendByte(old(View()), byte, flags)
    {
      trxr := byte;
      log := log + [Command(trxr, flags)];
    }

    method ReadByteIT(flags: bv8)
      requires Valid()
      modifies this`log
      ensures Valid() && View() == Issue(old(View()), flags)
    {
      WriteCsr(flags);
    }

    method SendByteBlocking(byte: bv8, flags: bv8) returns (failed: bv8)
      requires Valid()
      modifies this`log, this`trxr
      ensures Valid() && View() == SendByte(old(View()), byte, flags)
      ensures failed != 0 <==> Nacked(slave, log)
    {
      SendByteIT(byte, flags);
      var ack := AckReceived();
      failed := if ack then 0 else 0xFF;
    }

    method ReadByteBlocking(flags: bv8) returns (byte: bv8)
      requires Valid()
      modifies this`log
      ensures Valid() && View() == Issue(old(View()), flags)
      ensures byte == slave(log).data
    {
      WriteCsr(flags);
      byte := ReadTrxr();
    }

    // ---- The interrupt sequences ----

    method SendData()
      requires Valid() && tx.data < mem.Length
      modifies this`log, this`trxr, this`tx
      ensures Valid() && View() == TxSend(old(View()).(tx := old(tx).(phase := TX_DATA)))
    {
      tx := tx.(phase := TX_DATA);
      var flags := WR;
      if tx.size == 1 {
        flags := flags | STO;
        tx := tx.(phase := TX_END);
      }
      SendByteIT(mem[tx.data], flags);
      tx := tx.(data := tx.data + 1);
      tx := tx.(size := Decrement(tx.size));
    }

    method EndTransmit()
      requires Valid()
      modifies this`tx, this`state, this`ctr, this`reports
      ensures Valid() && View() == TxFinish(old(View()))
    {
      tx := tx.(phase := TX_READY);
      state := STATE_READY;
      ctr := IntDisabled(ctr);
      reports := reports + [Tx];
    }

    method SendAddress()
      requires Valid()
      modifies this`log, this`trxr, this`tx
      ensures Valid() && View() == TxAddress(old(View()))
    {
      SendByteIT(WriteAddress(tx.address), STA | WR);
      tx := tx.(phase := TX_ADDRESS);
    }

    /** The body of I2C_Master_Transmit_IT_Sequence up to the callback it ends with. */
    method TransmitITStep() returns (completed: bool)
      requires Valid() && TxInside(View())
      modifies this`log, this`trxr, this`tx, this`state, this`ctr, this`reports
      ensures Valid() && View() == TxStep(slave, old(View()))
      ensures completed == (|View().reports| > |old(View()).reports|)
    {
      completed := false;
      var phase := tx.phase;
      if phase == TX_ADDRESS {
        var ack := AckReceived();
        phase := if ack then TX_DATA else TX_READY;
      }
      if phase == TX_DATA {
        var ack := AckReceived();
        if ack {
          SendData();
          return;
        } else {
          phase := TX_END;
        }
      }
      if phase == TX_END {
        EndTransmit();
        return true;
      }
      if phase == TX_READY {
        SendAddress();
        return;
      }
    }

    method RequestByte()
      requires Valid()
      modifies this`log, this`rx
      ensures Valid() && View() == RxRead(old(View()))
    {
      var flags := if rx.size == 1 then RD | ACK else RD;
      ReadByteIT(flags);
      rx := rx.(phase := RX_GET_DATA);
      rx := rx.(size := Decrement(rx.size));
    }

    method StoreByte()
      requires Valid() && rx.data < mem.Length
      modifies this`stores, mem
      ensures Valid() && View() == RxStore(slave, old(View()))
    {
      mem[rx.data] := ReadTrxr();
      stores := stores + [rx.data];
    }

    method EndReceive()
      requires Valid() && rx.data < mem.Length
      modifies this`stores, this`log, this`rx, this`state, this`ctr, this`reports, mem
      ensures Valid() && View() == RxFinish(slave, old(View()))
    {
      StoreByte();
      rx := rx.(phase := RX_READY);
      state := STATE_READY;
      ctr := IntDisabled(ctr);
      WriteCsr(STO);
      reports := reports + [Rx];
    }

    method SendReadAddress()
      requires Valid()
      modifies this`log, this`trxr, this`rx
      ensures Valid() && View() == RxAddress(old(View()))
    {
      SendByteIT(ReadAddress(rx.address), STA | WR);
      rx := rx.(phase := RX_ADDRESS);
    }

    /** The body of I2C_Master_Receive_IT_Sequence up to the callback it ends with. */
    method ReceiveITStep() returns (completed: bool)
      requires Valid() && RxInside(View())
      modifies this`stores, this`log, this`trxr, this`rx, this`state, this`ctr, this`reports, mem
      ensures Valid() && View() == RxStep(slave, old(View()))
      ensures completed == (|View().reports| > |old(View()).reports|)
    {
      completed := false;
      var phase := rx.phase;
      if phase == RX_ADDRESS {
        var ack := AckReceived();
        phase := if ack then RX_DATA else RX_READY;
      }
      if phase == RX_GET_DATA {
        var ack := AckReceived();
        if ack {
          StoreByte();
          rx := rx.(data := rx.data + 1);
          phase := RX_DATA;
        } else {
          phase := RX_END;
        }
      }
      if phase == RX_DATA {
        RequestByte();
        return;
      }
      if phase == RX_END {
        EndReceive();
        return true;
      }
      if phase == RX_READY {
        SendReadAddress();
        return;
      }
    }

    method TransmitITSequence(callback: seq<Action>)
      requires Valid() && TxInside(View())
      requires Callable(slave, reports, TxStep(slave, View()), callback)
      modifies this, mem
      ensures Valid()
      ensures View() == Called(slave, old(reports), TxStep(slave, old(View())), callback)
      decreases |callback|, 2
    {
      var completed := TransmitITStep();
      if completed {
        CpltCallback(callback);
      }
    }

    method ReceiveITSequence(callback: seq<Action>)
      requires Valid() && RxInside(View())
      requires Callable(slave, reports, RxStep(slave, View()), callback)
      modifies this, mem
      ensures Valid()
      ensures View() == Called(slave, old(reports), RxStep(slave, old(View())), callback)
      decreases |callback|, 2
    {
      var completed := ReceiveITStep();
      if completed {
        CpltCallback(callback);
      }
    }

    // ---- Starting interrupt transfers ----

    method TransmitIT(dev: bv8, ptr: nat, size: U16)
      requires Valid() && Performable(slave, View(), Call(Request(Interrupt, Tx, dev, ptr, size)))
      modifies this, mem
      ensures Valid()
      ensures View() == Perform(slave, old(View()), Call(Request(Interrupt, Tx, dev, ptr, size)))
      ensures !old(state).STATE_READY? ==> View() == old(View())
      ensures old(state).STATE_READY? ==>
        && state == STATE_BUSY_TX_IT && tx == Job(TX_ADDRESS, dev, ptr, size) && ctr == old(ctr) | 0x40
        && log == old(log) + [Command(dev & 0xFE, 0x90)] && mem[..] == old(mem[..])
        && accepted == old(accepted) + [Call(Request(Interrupt, Tx, dev, ptr, size))]
      decreases 0, 3
    {
      if state != STATE_READY {
        return;
      }
      ghost var _ := InterruptCall(slave, View(), Request(Interrupt, Tx, dev, ptr, size));
      accepted := accepted + [Call(Request(Interrupt, Tx, dev, ptr, size))];
      state := STATE_BUSY_TX_IT;
      ctr := IntEnabled(ctr);
      tx := Job(TX_READY, dev, ptr, size);
      TransmitITSequence([]);
    }

    method ReceiveIT(dev: bv8, ptr: nat, size: U16)
      requires Valid() && Performable(slave, View(), Call(Request(Interrupt, Rx, dev, ptr, size)))
      modifies this, mem
      ensures Valid()
      ensures View() == Perform(slave, old(View()), Call(Request(Interrupt, Rx, dev, ptr, size)))
      ensures !old(state).STATE_READY? ==> View() == old(View())
      ensures old(state).STATE_READY? ==>
        && state == STATE_BUSY_RX_IT && rx == Job(RX_ADDRESS, dev, ptr, size) && ctr == old(ctr) | 0x40
        && log == old(log) + [Command(dev | 0x01, 0x90)] && mem[..] == old(mem[..])
        && accepted == old(accepted) + [Call(Request(Interrupt, Rx, dev, ptr, size))]
      decreases 0, 3
    {
      if state != STATE_READY {
        return;
      }
      ghost var _ := InterruptCall(slave, View(), Request(Interrupt, Rx, dev, ptr, size));
      accepted := accepted + [Call(Request(Interrupt, Rx, dev, ptr, size))];
      state := STATE_BUSY_RX_IT;
      ctr := IntEnabled(ctr);
      rx := Job(RX_READY, dev, ptr, size);
      ReceiveITSequence([]);
    }

    // ---- Blocking transfers ----

    /** Sends the address until the slave takes it. */
    method AddressLoop(byte: bv8, ghost k: nat)
      requires Valid() && AckAfter(slave, log, Command(byte, STA | WR), k)
      modifies this`log, this`trxr
      ensures Valid()
      ensures View() == old(View()).(log := old(log) + Repeat(Command(byte, STA | WR), k + 1))
    {
      ghost var c, l := Command(byte, STA | WR), log;
      ghost var i := 0;
      var failed := SendByteBlocking(byte, STA | WR);
      RepeatMore(l, c, 0);
      AnswerToWrite(slave, l, c);
      assert l + Repeat(c, 0) == l;
      while failed != 0
        invariant Valid() && i <= k
        invariant log == l + Repeat(c, i + 1)
        invariant View() == old(View()).(log := log)
        invariant failed != 0 <==> slave(log).nack
        decreases k - i
      {
        failed := SendByteBlocking(byte, STA | WR);
        i := i + 1;
        RepeatMore(l, c, i);
        AnswerToWrite(slave, l + Repeat(c, i), c);
      }
      ghost var asked := Repeat(c, i + 1);
      assert i == k || slave(l + asked).nack;
    }

    /** The data loop of I2C_Master_Transmit. */
    method SendAll(ptr: nat, size: U16, ghost r: Request)
      requires Valid() && r.way.Blocking? && r.dir.Tx? && r.ptr == ptr && r.size == size
      requires Fits(r, mem.Length)
      modifies this`log, this`trxr
      ensures Valid()
      ensures log == old(log) + Data(r, mem[..])
    {
      ghost var b, cs := log, Data(r, mem[..]);
      var data: nat, left := ptr, size;
      while left > 0
        invariant 0 <= left <= size && data == ptr + size - left
        invariant Valid() && log == b + cs[..size - left]
      {
        var flags := WR;
        if left == 1 {
          flags := flags | STO;
        }
        ghost var i := size - left;
        DataAt(r, mem[..], i);
        assert b + cs[..i + 1] == b + cs[..i] + [cs[i]];
        var _ := SendByteBlocking(mem[data], flags);
        data := data + 1;
        left := left - 1;
      }
    }

    method SendWhole(dev: bv8, ptr: nat, size: U16, ghost r: Request)
      requires Valid() && state.STATE_READY? && r == Request(Blocking, Tx, dev, ptr, size)
      requires Performable(slave, View(), Call(r))
      modifies this`log, this`trxr, this`iacks, this`accepted
      ensures Valid() && View() == Perform(slave, old(View()), Call(r))
    {
      ghost var k := Nacks(slave, log, Address(r));
      ghost var e := PerformTx(slave, View(), r, k);
      AddressLoop(WriteAddress(dev), k);
      SendAll(ptr, size, r);
      AcknowledgeInterrupt();
      accepted := accepted + [Call(r)];
      assert View() == e;
    }

    method Transmit(dev: bv8, ptr: nat, size: U16)
      requires Valid() && Performable(slave, View(), Call(Request(Blocking, Tx, dev, ptr, size)))
      modifies this`log, this`trxr, this`iacks, this`accepted
      ensures Valid()
      ensures View() == Perform(slave, old(View()), Call(Request(Blocking, Tx, dev, ptr, size)))
      ensures if old(state).STATE_READY?
              then CarriedOut(slave, old(View()), Request(Blocking, Tx, dev, ptr, size), View())
              else View() == old(View())
      decreases 0, 3
    {
      if state != STATE_READY {
        return;
      }
      ghost var r := Request(Blocking, Tx, dev, ptr, size);
      BlockingCarriedOut(slave, View(), r);
      SendWhole(dev, ptr, size, r);
    }

    method ReadInto(data: nat, flags: bv8)
      requires Valid() && data < mem.Length
      modifies this`log, this`stores, mem
      ensures Valid() && log == old(log) + [Command(Txr(old(log)), flags)]
      ensures mem[..] == old(mem[..])[data := slave(log).data]
      ensures stores == old(stores) + [data]
    {
      mem[data] := ReadByteBlocking(flags);
      stores := stores + [data];
    }

    /** The loop body: the master refuses more after the last byte. */
    method ReadNext(data: nat, last: bool)
      requires Valid() && data < mem.Length
      modifies this`log, this`stores, mem
      ensures Valid() && log == old(log) + [Command(Txr(old(log)), if last then RD | ACK else RD)]
      ensures mem[..] == old(mem[..])[data := slave(log).data]
      ensures stores == old(stores) + [data]
    {
      var flags := RD;
      if last {
        flags := flags | ACK;
      }
      ReadInto(data, flags);
    }

    /** The data loop of I2C_Master_Receive. */
    method ReadAll(ptr: nat, size: U16, ghost r: Request)
      requires Valid() && r.way.Blocking? && r.dir.Rx? && r.ptr == ptr && r.size == size
      requires Fits(r, mem.Length) && Txr(log) == ReadAddress(r.dev)
      modifies this`log, this`stores, mem
      ensures Valid() && Txr(log) == ReadAddress(r.dev)
      ensures log == old(log) + Data(r, old(mem[..]))
      ensures mem[..] ==
        Overwrite(old(mem[..]), ptr, Received(slave, old(log), Data(r, old(mem[..])), size))
      ensures stores == old(stores) + From(ptr, size)
    {
      ghost var b, cs := log, Data(r, mem[..]);
      var data: nat, left := ptr, size;
      while left > 0
        invariant 0 <= left <= size && data == ptr + size - left
        invariant Valid() && Txr(log) == ReadAddress(r.dev) && log == b + cs[..size - left]
        invariant mem[..] == Overwrite(old(mem[..]), ptr, Received(slave, b, cs, size - left))
        invariant stores == old(stores) + From(ptr, size - left)
      {
        ghost var i := size - left;
        DataAt(r, old(mem[..]), i);
        ReceivedMore(slave, b, cs, old(mem[..]), ptr, i);
        ReadNext(data, left == 1);
        data := data + 1;
        left := left - 1;
      }
    }

    method ReceiveWhole(dev: bv8, ptr: nat, size: U16, ghost r: Request)
      requires Valid() && state.STATE_READY? && r == Request(Blocking, Rx, dev, ptr, size)
      requires Performable(slave, View(), Call(r))
      modifies this`log, this`trxr, this`iacks, this`accepted, this`stores, mem
      ensures Valid() && View() == Perform(slave, old(View()), Call(r))
    {
      ghost var k := Nacks(slave, log, Address(r));
      ghost var e := PerformRx(slave, View(), r, k);
      AddressLoop(ReadAddress(dev), k);
      ReadAll(ptr, size, r);
      WriteCsr(STO);
      AcknowledgeInterrupt();
      accepted := accepted + [Call(r)];
      assert View() == e;
    }

    method Receive(dev: bv8, ptr: nat, size: U16)
      requires Valid() && Performable(slave, View(), Call(Request(Blocking, Rx, dev, ptr, size)))
      modifies this`log, this`trxr, this`iacks, this`accepted, this`stores, mem
      ensures Valid()
      ensures View() == Perform(slave, old(View()), Call(Request(Blocking, Rx, dev, ptr, size)))
      ensures if old(state).STATE_READY?
              then CarriedOut(slave, old(View()), Request(Blocking, Rx, dev, ptr, size), View())
              else View() == old(View())
      decreases 0, 3
    {
      if state != STATE_READY {
        return;
      }
      ghost var r := Request(Blocking, Rx, dev, ptr, size);
      BlockingCarriedOut(slave, View(), r);
      ReceiveWhole(dev, ptr, size, r);
    }

    // ---- Callbacks and the handler ----

    method Act(a: Action)
      requires Valid() && Performable(slave, View(), a)
      modifies this, mem
      ensures Valid() && View() == Perform(slave, old(View()), a)
      ensures a.Poke? ==> mem[..] == old(mem[..])[a.ptr := a.value] && log == old(log) && state == old(state)
      decreases 0, 4
    {
      match a
      case Poke(ptr, value) =>
        mem[ptr] := value;
        accepted := Store(old(View()), ptr, value).accepted;
      case Call(Request(Interrupt, Tx, dev, ptr, size)) => TransmitIT(dev, ptr, size);
      case Call(Request(Interrupt, Rx, dev, ptr, size)) => ReceiveIT(dev, ptr, size);
      case Call(Request(Blocking, Tx, dev, ptr, size)) => Transmit(dev, ptr, size);
      case Call(Request(Blocking, Rx, dev, ptr, size)) => Receive(dev, ptr, size);
    }

    /** I2C_MasterTxCpltCallback or I2C_MasterRxCpltCallback: any calls the user makes there. */
    method CpltCallback(actions: seq<Action>)
      requires Valid() && AllPerformable(slave, View(), actions)
      modifies this, mem
      ensures Valid() && View() == PerformAll(slave, old(View()), actions)
      decreases |actions|, 1
    {
      for i := 0 to |actions|
        invariant Valid() && AllPerformable(slave, View(), actions[i..])
        invariant PerformAll(slave, View(), actions[i..]) == PerformAll(slave, old(View()), actions)
      {
        assert actions[i..][1..] == actions[i + 1..];
        Act(actions[i]);
      }
    }

    /** I2C_IRQ_Handler: the event Irq(callback) of I2cDriver. */
    method IrqHandler(callback: seq<Action>)
      requires Valid() && Possible(slave, View(), Irq(callback))
      modifies this, mem
      ensures Valid() && View() == Take(slave, old(View()), Irq(callback))
      ensures old(state).STATE_READY? ==> View() == old(View()).(iacks := old(iacks) + 1)
    {
      AcknowledgeInterrupt();
      if state == STATE_BUSY_TX_IT {
        TransmitITSequence(callback);
      } else if state == STATE_BUSY_RX_IT {
        ReceiveITSequence(callback);
      }
    }
  }
}
