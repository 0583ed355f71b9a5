# Verification of the microcontroller's drivers

Dafny models of the interrupt-driven firmware of a small RISC-V microcontroller, with proofs about
all runs of it. `dafny verify dfyconfig.toml` checks everything.

| files | what they model |
|---|---|
| `I2cBus`, `I2cDriver`, `I2cProgress`, `I2cRuns`, `I2cCalls`, `I2cWire`, `I2cChain`, `I2cMaster` | the I2C master driver, blocking and interrupt-driven |
| `NestedIrq`, `NestedHandlers` | interrupt handlers that re-enable interrupts and nest |
| `UartFifo`, `UartFifoRuns`, `UartFifoDriver` | the UART driver with hardware FIFOs |
| `UartNoFifo`, `UartNoFifoRuns`, `UartNoFifoControl`, `UartNoFifoDriver` | the UART driver without FIFOs |
| `PowerPins` | the script that adds power pins to a netlist |
| `Heap`, `Timer`, `NullDetect`, `Endian` | `_sbrk`, the timer's shadow register, the zero-byte test, byte orders |
| `Memory` | bytes, 16-bit counters, overwriting a stretch of memory |

Each driver is a class whose methods update the handle, the registers and the memory as the C code
does (`I2cMaster`, `UartFifoDriver`, `UartNoFifoDriver`, `Timer.Device`, `Heap.Allocator`,
`NestedHandlers.Hart`). Each method is proved to take the abstract state of the object to what a
specification function says, and most also say field by field what they leave; in
`NestedHandlers.Hart` it is the steps executed that are specified. The main results are lemmas about
whole runs of those functions.

## Main results

* **I2C: an interrupt-driven run refines a serial one** (`I2cChain.ReadyMeansSerial`). For an
  arbitrary slave, whose every answer may depend on all it has seen, and for any interleaving of
  interrupts, calls, stores of the program to any cell at any time, and completion callbacks that
  start further transfers: whenever the driver is ready, bus and memory are those of the accepted
  transfers carried out whole one after another, with the stores in between, and each interrupt
  transfer was reported once. A store made during a transfer is recorded after it if the transfer is
  done with the cell, otherwise before it. What is accepted is exactly every store and every call that
  finds the driver ready, the calls in their order (`I2cCalls.RunRecords`), and what one call puts on
  the bus is given bit by bit (`I2cCalls.BlockingCall`, `InterruptCall`).
* **I2C: interrupt and blocking forms agree** exactly when Size is not 0 and no data byte before
  the last is refused (`I2cRuns.SameAsBlocking`, `I2cChain.InterruptsAsBlocking`), command by
  command along the way (`I2cRuns.Lockstep`), and a transfer takes exactly k + m + 1 interrupts
  (`I2cRuns.CompletionTime`).
* **Nested interrupts** to any depth, taken between any two instructions where the hart allows it,
  each resume what they interrupted (`NestedIrq.HandlerResumes`), and there is always room for one
  more (`AnyDepth`). The step machine has one step per CSR instruction of the two macros;
  `NestedHandlers.Hart` has the handlers as code, with prologues and epilogues of any length. Every
  execution of them is a run of the step machine that does exactly what the code says, an interrupt
  being taken exactly where mie and MIE let it through, and leaves no trace
  (`NestedHandlers.Hart.Handler`, `HandlerOwn`).
* **UART with FIFOs**: the three forms of a transmit send the same bytes exactly when Size is not 0
  (`UartFifo.FormsAgree`), and none by itself overflows the FIFO (`UartFifo.BlockingConserves`). In
  runs the main program's blocking transmit goes poll by poll and byte by byte, and interrupts cut
  into it anywhere: every byte is accepted or lost (`UartFifoRuns.RunAccounts`), none is lost on any
  line when every interrupt that cuts in between a poll and the writes it allows leaves room for
  them (`RunHandsOver`), and one that does not loses exactly the excess on a line that takes nothing
  (`CutInLoses`). Neither direction disturbs the other (`TxDelivers`, `RxDelivers`). From its first
  interrupt on, a buffer goes out in one piece exactly when no blocking transmit writes a byte
  (`BufferInOnePiece`).
* **UART without FIFOs**: over any run in which no interrupt transmit is started inside the main
  program's blocking one, what is sent is exactly what was accepted, but for one byte
  (`UartNoFifoRuns.RunConserves`), and the byte is lost exactly by a transmit callback that starts a
  transmit (`CallbackKeepsReady`). Over any run at all, both kinds of transmit send all their bytes in
  order, and in one piece exactly when the other sends nothing in between (`TxDelivers`,
  `LoopDelivers`), and receives deliver theirs (`TransmitCompletes`, `ReceiveCompletes`). The enable
  and reset bits of CONTROL are what the calls made switch them to, and nothing else changes them
  (`UartNoFifoControl.RunSwitches`).
* **Heap**: all calls of a sequence answer by the true sum exactly when none wraps and succeeds
  (`Heap.AllAnswer`), and then blocks are adjacent and in order (`BlocksAdjacent`, `BlocksInOrder`).
* **Timer**: after any calls CTRL and MOD hold what the calls since the last init or clear ask for, and
  after an acknowledge CTRL holds the flag bit alone (`Timer.RegistersMeaning`).
* **Netlist script**: the output is given text by text for every input file (`PowerPins.WithoutHeader`,
  `WithHeaderOnly`, `WithHeaderAndInput`), and deleting the insertions gives back the input
  (`NothingLost`).

## What the proofs found

Each with the lemma that gives the exact condition, and one at a failing input.

* `I2cWire.ReleasedUnlessCutShort`, `CutShortExample`: an interrupt transmit whose slave refuses a
  data byte before the last is reported complete although no stop condition was sent, so the bus is
  not released. A blocking transmit of Size 0 sends no stop condition either.
* `I2cRuns.SameAsBlocking`, `I2cWire.SizeZeroExample`, `UartFifo.FormsAgree`,
  `UartFifo.SizeZeroExample`: Size 0 is not checked by the interrupt calls of the I2C driver and the
  FIFO UART driver. An I2C transfer and the byte form of a UART transmit then move 65536 bytes, and
  the chunk form never ends. The receive of the UART driver without FIFOs does not check Size 0
  either, and stores 65536 bytes (`UartNoFifoRuns.ReceiveCompletes`, `ReceiveZeroExample`).
* `UartFifo.NotEmptyReceiveNeverReady`, `NeverReadyExample`: `uart.c:204` of the FIFO driver compares
  where it means to assign.
* `UartFifoRuns.CutInLoses`, `CutInExample`: the blocking transmit of the FIFO driver reads the free
  space once (`uart.c:52`) for the writes of lines 54-59. If the transmit interrupt writes its share
  in between, the count is stale and the FIFO overflows; the example loses eight bytes.
  `sw/ibex/other_test/uart/core/src/main.c:115-116` calls `printf`, which prints by a blocking
  transmit (lines 41-42), right after it starts an interrupt transmit.
* `UartFifoRuns.BufferInOnePiece`, `SplitExample`: nor is that blocking transmit refused during an
  interrupt transmit. A byte it writes once some of the interrupt transmit's bytes are out cuts that
  buffer in two; what it writes before the first interrupt does not.
* `UartNoFifoRuns.LoopDelivers`, `TxDelivers`, `MixExample`: the blocking transmit of the driver
  without FIFOs leaves the state ready, so a transmit started from a receive callback in the middle of
  it is accepted, and the bytes of the two mix.
* `UartNoFifoRuns.CallbackKeepsReady`, `CallbackTransmitLosesFirst`, `CallbackExample`: a transmit
  started in the transmit callback loses its first byte. `UartNoFifoRuns.RxIrqCompletes`,
  `ReceiveAgainExample`: a receive cannot be restarted in the receive callback, nor can the receiver be
  switched off there (`UartNoFifoControl.RxIrqKeepsReceiver`).
* `Heap.WrapIsAccepted`, `WrapExample`: `heap_end + incr` is compared after it may have wrapped.
* `sw/ibex/common/drivers/v0.5/inc/timer.h:71-72` asks for `timer_set` and `timer_en` after an
  acknowledge; in the code `timer_set` alone re-arms the timer, because the shadow keeps the enable
  bits (`Timer.AckThenSetRearms`, `RearmExample`). The model follows the code.
* The comments at `sw/ibex/common/drivers/i2c/v0.1/i2c_master.h:34-43` give the ACK and RXACK bits
  the opposite meaning of what line 67 and the receive code use. The model follows the code.

## Assumptions about the hardware and the application

* I2C. Each transfer command completes before the next status read, so the busy waits and the `nop`
  before them are not modelled, and in interrupt mode raises one interrupt. After a write, RXACK is
  the slave's answer; after a read it is the ACK bit the master itself sent (the core samples the
  line it drives). IACK writes are counted, and are no bus commands.
* I2C. A finished stop acknowledges its command (`rtl/peripherals/i2c_master_byte_ctrl.v:326-333`),
  which sets the interrupt flag (`rtl/peripherals/i2c_master_top.v:263`) and clears the command bits
  (line 205). A start written right after the stop of a receive, before that stop has finished, is
  dropped, and the interrupt of the stop comes in its place. RXACK is still 1 then, from the last
  read, so the driver asks again. In the model this is one refused address, one of the answers the
  arbitrary slave may give, and the k of `I2cRuns.CompletionTime` counts it.
* Each API call and each handler of a driver is one step, and so is a callback, which may be any
  sequence of calls; but a blocking UART transmit of the main program takes one step for each poll
  and each write (without FIFOs, one for a test of the busy bit and the write it allows). The
  `Transmit` event of both UART models is a blocking transmit made in a handler or callback, which
  nothing cuts into. The CSR nesting model has a step for each instruction.
* The program stores neither into the buffer of a UART receive under way nor to bytes a UART
  interrupt transmit has yet to send; for I2C it stores where and when it likes. A blocking I2C call
  is made only if the slave acknowledges its address at some time.
* Buffers lie inside memory. Of a UART transmit and a UART receive in flight at the same time, the
  bytes yet to be sent and the cells yet to be stored to are different cells.
* The UART FIFOs hold 15 bytes. Free space reported is never more than there is, and may change
  before the next access; the half-empty interrupt finds at least 8 places free, the not-full
  interrupt one; a receive interrupt finds the bytes its handler reads.
* Traps and `mret` follow sections 3.1.6.1 and 3.3.2 of the RISC-V Privileged Architecture, version
  20211203; harts have machine and user mode. The body of a handler may change `mie` and toggle MIE.
* The wire format of I2C is that of sections 3.1.4, 3.1.6 and 3.1.10 of NXP UM10204.
* The three line tests of the netlist script (header, input, instance) are arbitrary predicates, and a
  file is a sequence of lines.

## Model

| member | source | states |
|---|---|---|
| `I2cRuns.CompletionTime` | sw/ibex/common/drivers/i2c/v0.1/i2c_master.c:129-265 | An accepted interrupt transfer against a slave that refuses its address k times is under way, interrupt enabled and unreported, after every i < k + m + 1 interrupts, and complete, reported exactly once and unchanged by further interrupts from the (k + m + 1)-th on; m is Size, or the first refused data byte of a transmit (Size 0 stands for 65536) |
| `I2cRuns.NeverAcknowledged` | sw/ibex/common/drivers/i2c/v0.1/i2c_master.c:129-136 | The other case: a slave that never takes its address is asked once more by every interrupt, and nothing else ever happens |
| `I2cRuns.Lockstep` | sw/ibex/common/drivers/i2c/v0.1/i2c_master.c:63-114 | While an interrupt transfer runs, after i interrupts the bus has seen exactly the first i + 1 commands the blocking form would issue against the same answers |
| `I2cRuns.LockstepAtCompletion` | sw/ibex/common/drivers/i2c/v0.1/i2c_master.c:63-254 | At completion the bus has seen as many of the blocking form's commands as the transfer issued: of a receive all of them, of a transmit up to the last byte sent |
| `I2cRuns.BlockingWhole` | sw/ibex/common/drivers/i2c/v0.1/i2c_master.c:63-114 | The whole blocking transfer is the last of the histories Lockstep goes through |
| `I2cRuns.SameAsBlocking` | sw/ibex/common/drivers/i2c/v0.1/i2c_master.c:63-254 | Whole interrupt transfer and whole blocking transfer issue the same commands if and only if Size is not 0 and no data byte before the last is refused; then memory and the order of the stores agree too |
| `I2cRuns.PrefixOfBlocking` | sw/ibex/common/drivers/i2c/v0.1/i2c_master.c:63-254 | For Size > 0 and any answers, the commands of a whole interrupt transfer are a prefix of those of the blocking one; a receive leaves the same commands, memory and stores |
| `I2cRuns.LimitIsAll` | sw/ibex/common/drivers/i2c/v0.1/i2c_master.c:137-155 | An interrupt transfer reaches its last byte if and only if no data byte before it was refused (on receive: always) |
| `I2cRuns.OneInterrupt` | sw/ibex/common/drivers/i2c/v0.1/i2c_master.c:129-265 | One interrupt of a transfer under way either moves it exactly one command on, or completes it with the bus, memory and stores of the whole transfer and reports it |
| `I2cBus.ReceiveReachesAll` | sw/ibex/common/drivers/i2c/v0.1/i2c_master.c:180-200 | With RXACK echoing the bit the master sent, the receive machine takes its END branch at the last byte and never earlier |
| `I2cProgress.AskAgain` | sw/ibex/common/drivers/i2c/v0.1/i2c_master.c:129-136 | A refused address is sent again and counts as one more refusal |
| `I2cProgress.SendStep` | sw/ibex/common/drivers/i2c/v0.1/i2c_master.c:137-162 | The interrupt after a sent byte sends the next one, or ends the transfer if that was the last or was refused |
| `I2cProgress.ReadArrived` | sw/ibex/common/drivers/i2c/v0.1/i2c_master.c:180-190 | When a requested byte has arrived it is stored to the next cell, and RXACK tells the last one from all others |
| `I2cProgress.ReadStep` | sw/ibex/common/drivers/i2c/v0.1/i2c_master.c:180-210 | The interrupt after a requested byte stores it and requests the next, or stores it, stops and ends the transfer |
| `I2cProgress.StartRuns` | sw/ibex/common/drivers/i2c/v0.1/i2c_master.c:221-254 | An accepted interrupt call leaves the transfer in its ADDRESS phase, its first address command issued |
| `I2cProgress.StoreWhileRunning` | sw/ibex/common/drivers/i2c/v0.1/i2c_master.c:129-219 | A store of the program during a transfer, in its buffer or not, to a cell it has not sent or stored yet is the same as that store made before the transfer began |
| `I2cWire.WireFormat` | sw/ibex/common/drivers/i2c/v0.1/i2c_master.c:72-113 | Every whole transfer is one or more start + address commands with the right R/W bit, then plain data commands in buffer order, stop with the last transmitted byte only, master NACK on the last read only, and a stop of its own after a receive |
| `I2cWire.ReleasedUnlessCutShort` | sw/ibex/common/drivers/i2c/v0.1/i2c_master.c:71-162 | A transfer contains a stop condition if and only if it is a receive, or a transmit that sends its last byte: by interrupt, if no data byte before it is refused; blocking, if Size is not 0 |
| `I2cWire.CutShortExample` | sw/ibex/common/drivers/i2c/v0.1/i2c_master.c:137-162 | Two bytes by interrupt to a slave that refuses the first: reported complete after two interrupts, without any stop condition |
| `I2cWire.SizeZeroExample` | sw/ibex/common/drivers/i2c/v0.1/i2c_master.c:221-237 | Size 0 by interrupt sends 65536 data bytes, by the blocking form only the address |
| `I2cChain.ServiceKeepsInv` | sw/ibex/common/drivers/i2c/v0.1/i2c_master.c:256-265 | An interrupt finds every data pointer inside its buffer and keeps the invariant of runs; only one that returns the driver to ready reports a completion |
| `I2cChain.PerformKeepsInv` | sw/ibex/common/drivers/i2c/v0.1/i2c_master.c:63-114 | Any application call, accepted or refused, and any store to any cell, keeps the invariant of runs |
| `I2cChain.TakeKeepsInv` | sw/ibex/common/drivers/i2c/v0.1/i2c_master.c:256-265 | An interrupt with any completion callback, blocking and interrupt transfers included, keeps the invariant of runs |
| `I2cChain.RunsAreSerial` | sw/ibex/common/drivers/i2c/v0.1/i2c_master.c:129-265 | Any interleaving of interrupts, calls, callbacks and stores of the program keeps the invariant |
| `I2cChain.ReadyMeansSerial` | sw/ibex/common/drivers/i2c/v0.1/i2c_master.c:10-265 | After any run from I2C_Init, whenever the driver is ready: bus, memory and stores are those of the accepted transfers carried out whole, one after another, with the stores of the program in between; each interrupt transfer was reported exactly once, in order; interrupts are off |
| `I2cChain.ReachableShape` | sw/ibex/common/drivers/i2c/v0.1/i2c_master.c:129-265 | In every reachable state between interrupts, r being the transfer accepted last: IEN is set exactly in the two interrupt states; ADDRESS has the original Size and Data; TX DATA has 1 <= Size, TX END has Size 0; Data has advanced by exactly what Size has lost |
| `I2cChain.SerialSameBlocked` | sw/ibex/common/drivers/i2c/v0.1/i2c_master.c:63-254 | Replacing every interrupt transfer of a serial run by the blocking one changes nothing, when no Size is 0 and no data byte before the last is refused |
| `I2cChain.InterruptsAsBlocking` | sw/ibex/common/drivers/i2c/v0.1/i2c_master.c:10-265 | The two together: a run from I2C_Init of that kind leaves bus, memory and stores as if only the blocking functions had been called |
| `I2cCalls.RunRecords` | sw/ibex/common/drivers/i2c/v0.1/i2c_master.c:10-265 | Over any run: what is accepted is exactly every store and every call that finds the driver ready, those of the callback of each completed transfer included, the calls in order; the interrupt flag is cleared once for each interrupt, busy or not, and once for each accepted blocking call |
| `I2cCalls.CallbackAccepted` | sw/ibex/common/drivers/i2c/v0.1/i2c_master.c:160-208 | The first thing a completion callback does is carried out |
| `I2cCalls.BlockingCall` | sw/ibex/common/drivers/i2c/v0.1/i2c_master.c:63-114 | A blocking call on a ready driver: the commands on the bus bit by bit for a slave that refuses its address k times, the same ones the command-by-command form issues; the cells received; ready again; accepted |
| `I2cCalls.InterruptCall` | sw/ibex/common/drivers/i2c/v0.1/i2c_master.c:221-254 | An interrupt call on a ready driver: state and handle of the transfer, IEN set, the address command, accepted; nothing else changes |
| `I2cCalls.RefusedCall` | sw/ibex/common/drivers/i2c/v0.1/i2c_master.c:66-68 | A call on a driver that is not ready has no effect at all |
| `I2cMaster.Handle.Init` | sw/ibex/common/drivers/i2c/v0.1/i2c_master.c:10-34 | The initial state of all runs: ready, core enabled, interrupt off |
| `I2cMaster.Handle.AckReceived` | sw/ibex/common/drivers/i2c/v0.1/i2c_master.h:67 | The RXACK test answers whether the newest command was acknowledged |
| `I2cMaster.Handle.SendByteBlocking` | sw/ibex/common/drivers/i2c/v0.1/i2c_master.c:36-49 | One command on the bus; the result is nonzero exactly if it was refused |
| `I2cMaster.Handle.ReadByteBlocking` | sw/ibex/common/drivers/i2c/v0.1/i2c_master.c:51-61 | One command on the bus; the result is the byte the slave supplies for it |
| `I2cMaster.Handle.SendByteIT` | sw/ibex/common/drivers/i2c/v0.1/i2c_master.c:116-122 | One command carrying the byte; nothing else changes |
| `I2cMaster.Handle.ReadByteIT` | sw/ibex/common/drivers/i2c/v0.1/i2c_master.c:124-127 | One command, the transmit register kept; nothing else changes |
| `I2cMaster.Handle.AddressLoop` | sw/ibex/common/drivers/i2c/v0.1/i2c_master.c:71-73 | Issues the address command exactly until it is first acknowledged |
| `I2cMaster.Handle.SendAll` | sw/ibex/common/drivers/i2c/v0.1/i2c_master.c:75-84 | The data loop issues exactly the data commands of the request |
| `I2cMaster.Handle.ReadAll` | sw/ibex/common/drivers/i2c/v0.1/i2c_master.c:101-110 | The data loop issues exactly the data commands, and stores each byte supplied once, in order, and nowhere else |
| `I2cMaster.Handle.Transmit` | sw/ibex/common/drivers/i2c/v0.1/i2c_master.c:63-87 | On a ready driver: the address until it is acknowledged, then every byte with its bits, one IACK, ready again, and nothing else changed; none of it otherwise |
| `I2cMaster.Handle.Receive` | sw/ibex/common/drivers/i2c/v0.1/i2c_master.c:89-114 | On a ready driver: the address until it is acknowledged, a read command for every byte, each byte supplied stored in its cell, a stop, one IACK, ready again, and nothing else changed; none of it otherwise |
| `I2cMaster.Handle.TransmitITStep` | sw/ibex/common/drivers/i2c/v0.1/i2c_master.c:129-171 | One call takes the one step of the transmit machine, fall-through branches included |
| `I2cMaster.Handle.ReceiveITStep` | sw/ibex/common/drivers/i2c/v0.1/i2c_master.c:173-219 | One call takes the one step of the receive machine, fall-through branches included |
| `I2cMaster.Handle.TransmitITSequence` | sw/ibex/common/drivers/i2c/v0.1/i2c_master.c:129-171 | The step, then the callback if it completed, and nothing after it |
| `I2cMaster.Handle.ReceiveITSequence` | sw/ibex/common/drivers/i2c/v0.1/i2c_master.c:173-219 | The step, then the callback if it completed, and nothing after it |
| `I2cMaster.Handle.TransmitIT` | sw/ibex/common/drivers/i2c/v0.1/i2c_master.c:221-237 | Starts the interrupt transmit of runs, or is refused without effect when busy |
| `I2cMaster.Handle.ReceiveIT` | sw/ibex/common/drivers/i2c/v0.1/i2c_master.c:238-254 | Starts the interrupt receive of runs, or is refused without effect when busy |
| `I2cMaster.Handle.CpltCallback` | sw/ibex/common/drivers/i2c/v0.1/i2c_master.c:160-208 | A user callback that makes any sequence of calls has their effects in order |
| `I2cMaster.Handle.IrqHandler` | sw/ibex/common/drivers/i2c/v0.1/i2c_master.c:256-265 | The handler is the interrupt event of runs: acknowledge, dispatch on State, callback last |
| `NestedIrq.HandlerResumes` | sw/ibex/other_test/nested_interrupts/core/src/int.c:13-89 | Interrupts nested to any depth, taken wherever they can be: the mret of each handler resumes the pc and mode it interrupted, with the same MIE and mie, and every outer handler as it was |
| `NestedIrq.SafeToInterrupt` | sw/ibex/other_test/nested_interrupts/core/src/int.c:36-89 | In every reachable state: a handler that can be interrupted, and every handler already interrupted, holds complete copies of what it interrupted and has restored nothing |
| `NestedIrq.StepKeepsInv` | sw/ibex/other_test/nested_interrupts/core/src/int.c:13-32 | Every instruction, trap and mret keeps the invariant that ties the saved copies and live CSRs of the handlers to what each interrupted |
| `NestedIrq.TrapKeepsInv` | sw/ibex/other_test/nested_interrupts/core/src/int.c:15-18 | A trap in the middle of a handler overwrites mepc, MPIE and MPP only after they are saved |
| `NestedIrq.ReturnKeepsInv` | sw/ibex/other_test/nested_interrupts/core/src/int.c:28-31 | mret reinstates exactly the interrupted pc, mode, MIE and mie |
| `NestedIrq.RunKeepsInv` | sw/ibex/other_test/nested_interrupts/core/src/int.c:13-89 | The invariant holds at every point of every run |
| `NestedIrq.BelowStays` | sw/ibex/other_test/nested_interrupts/core/src/int.c:36-89 | As long as a handler is active, whatever nests above it leaves it and everything below it untouched |
| `NestedIrq.NestsAgain` | sw/ibex/other_test/nested_interrupts/core/src/int.c:13-19 | Wherever MIE (or user mode) and mie let an interrupt in, it can be taken, and reaches its body with interrupts let in again |
| `NestedIrq.AnyDepth` | sw/ibex/other_test/nested_interrupts/core/src/int.c:13-19 | So from any such point interrupts nest n levels deeper, for every n |
| `NestedHandlers.Hart.Trap` | sw/ibex/other_test/nested_interrupts/core/src/int.c:34-36 | A trap goes to its vector in machine mode with interrupts off, and saves pc, MIE and mode; it is the trap step of the step machine |
| `NestedHandlers.Hart.CriticalSectionEntry` | sw/ibex/other_test/nested_interrupts/core/src/int.c:13-19 | The macro executes its four instructions in order; it copies mepc, mstatus and mie as they were and then sets MIE |
| `NestedHandlers.Hart.CriticalSectionExit` | sw/ibex/other_test/nested_interrupts/core/src/int.c:26-32 | The macro executes its four instructions in order, after which mie, mstatus and mepc are the three copies again |
| `NestedHandlers.Hart.MretInsn` | sw/ibex/other_test/nested_interrupts/core/src/int.c:34-51 | mret goes back to mepc and MPP and reinstates MPIE; it is the return step of the step machine |
| `NestedHandlers.Hart.Handler` | sw/ibex/other_test/nested_interrupts/core/src/int.c:36-89 | A handler, with prologue and epilogue of any length and any tree of further interrupts between any two instructions of its body and before EXIT has cleared MIE, begins with its trap, executes exactly the instructions of that tree, each interrupt being taken if and only if mie and MIE let it through, and leaves pc, mode, MIE, mie and the outer handlers as at its trap |
| `NestedHandlers.HandlerOwn` | sw/ibex/other_test/nested_interrupts/core/src/int.c:36-89 | However many others nest inside it, what a handler itself executes is prologue, ENTRY, the instructions of its body in order, EXIT, epilogue and mret, with a trap for each interrupt let through and for no other |
| `NestedHandlers.Hart.Arrive` | sw/ibex/other_test/nested_interrupts/core/src/int.c:36-89 | An interrupt is taken if and only if mie and MIE let it through, and leaves no trace |
| `UartFifo.BlockingConserves` | sw/ibex/other_test/uart/core/src/uart.c:48-61 | Whatever the line takes and whatever free space it reports (never more than there is): after any number of polls no byte was lost, and what has gone out plus what is queued is what had before, plus what was taken from the buffer, in order |
| `UartFifo.BlockingDelivers` | sw/ibex/other_test/uart/core/src/uart.c:48-61 | When the loops end, the whole buffer has been accepted, in order, and no byte was lost |
| `UartFifo.DrainMoves` | sw/ibex/other_test/uart/core/src/uart.c:52 | The line takes bytes from the front of the queue and sends them in that order |
| `UartFifo.PutMoves` | sw/ibex/other_test/uart/core/src/uart.c:56 | A write joins the back of the queue, and is lost exactly if that is full |
| `UartFifo.PutRangeFits` | sw/ibex/other_test/uart/core/src/uart.c:54-59 | Writing no more bytes than there is room for loses none and appends them in order |
| `UartFifo.EndsAfterTurns` | sw/ibex/other_test/uart/core/src/uart.c:50-60 | The blocking loop is over after n polls exactly when nothing is left then |
| `UartFifo.ChunkedTransmit` | sw/ibex/other_test/uart/core/src/uart.c:63-98 | Chunk form: i interrupts hand over exactly the first min(8 i, Size) bytes, none lost, the pointer stays in the buffer; it is ready with its mie bit cleared if and only if Size is not 0 and 8 i >= Size |
| `UartFifo.ByteTransmit` | sw/ibex/other_test/uart/core/src/uart.c:255-278 | Byte form: i interrupts hand over exactly the first min(i, Size) bytes; ready with its mie bit cleared if and only if i >= Size (Size 0 stands for 65536) |
| `UartFifo.ChunkStep` | sw/ibex/other_test/uart/core/src/uart.c:216-253 | One half-empty interrupt hands over the next min(8, left) bytes |
| `UartFifo.FormsAgree` | sw/ibex/other_test/uart/core/src/uart.c:48-278 | On any three lines, the blocking, chunk and byte forms of a transmit send the same bytes if and only if Size is not 0; for Size 0 the byte form sends 65536 and the chunk form never ends |
| `UartFifo.HalfFullReceive` | sw/ibex/other_test/uart/core/src/uart.c:116-190 | i half-full interrupts store exactly the next min(8 i, Size) bytes read, in order, into the buffer and nowhere else; ready and masked if and only if Size is not 0 and 8 i >= Size |
| `UartFifo.NotEmptyReceiveNeverReady` | sw/ibex/other_test/uart/core/src/uart.c:192-214 | The byte receive fills its buffer and masks its interrupt at the last byte but stays busy, so every later receive call is refused |
| `UartFifo.NeverReadyExample` | sw/ibex/other_test/uart/core/src/uart.c:192-214 | One byte received: masked, still busy, and the next call refused |
| `UartFifo.SizeZeroExample` | sw/ibex/other_test/uart/core/src/uart.c:216-278 | A transmit of no bytes: in chunks nothing ever changes, byte by byte a byte is sent and 65535 are left |
| `UartFifoRuns.RunAccounts` | sw/ibex/other_test/uart/core/src/uart.c:48-278 | In any run whatever, on any line, every byte handed over is either accepted or lost |
| `UartFifoRuns.RunHandsOver` | sw/ibex/other_test/uart/core/src/uart.c:48-278 | No byte is lost on any line, and the FIFO accepts exactly what the events hand over, in order, in every run of interrupts of both directions, calls, stores, polls and writes in which what cuts in between a poll and the writes it allows leaves room for them; so in every run in which nothing is handed over there |
| `UartFifoRuns.TakeKeepsGood` | sw/ibex/other_test/uart/core/src/uart.c:48-278 | In every reachable state the pointers of both directions and of the blocking transmit stay inside their buffers, and transmitting is the same as having the transmit interrupt enabled |
| `UartFifoRuns.TurnByEvents` | sw/ibex/other_test/uart/core/src/uart.c:52-59 | A poll and the writes it allows, when nothing cuts in, are one turn of the blocking transmit |
| `UartFifoRuns.CutInLoses` | sw/ibex/other_test/uart/core/src/uart.c:52-59 | On a line that takes nothing, a transmit interrupt between a poll and the last write it allows loses exactly its share plus the writes left, less the room; so it loses no byte if and only if it leaves room for those writes |
| `UartFifoRuns.CutInExample` | sw/ibex/other_test/uart/core/src/uart.c:52-59 | Fifteen free places polled, then the half-empty interrupt, then the fifteen writes: eight bytes are lost |
| `UartFifoRuns.TransmitStarts` | sw/ibex/other_test/uart/core/src/uart.c:63-98 | An accepted call puts a transmit of its whole buffer under way |
| `UartFifoRuns.TxDelivers` | sw/ibex/other_test/uart/core/src/uart.c:216-278 | However the other events fall, t transmit interrupts hand over the next t shares of the buffer; they are handed over as one piece if no blocking transmit writes meanwhile, and otherwise the surplus is exactly what those write |
| `UartFifoRuns.BufferInOnePiece` | sw/ibex/other_test/uart/core/src/uart.c:48-278 | In such a run the last interrupt makes the driver ready and masks itself, and from the first interrupt on the FIFO accepts exactly the buffer if and only if no byte of a blocking transmit is written; what blocking transmits write before goes out ahead of it |
| `UartFifoRuns.RestInOnePiece` | sw/ibex/other_test/uart/core/src/uart.c:48-278 | The same from any point of a transmit under way |
| `UartFifoRuns.SplitExample` | sw/ibex/other_test/uart/core/src/uart.c:48-61 | With some of an interrupt transmit handed over, a blocking transmit of one byte: the byte goes out between that and the rest |
| `UartFifoRuns.OthersLeaveTx` | sw/ibex/other_test/uart/core/src/uart.c:48-214 | Nothing but a transmit interrupt moves or disturbs an interrupt transmit |
| `UartFifoRuns.ReceiveStarts` | sw/ibex/other_test/uart/core/src/uart.c:116-151 | An accepted call puts a receive of its whole buffer under way |
| `UartFifoRuns.RxDelivers` | sw/ibex/other_test/uart/core/src/uart.c:153-214 | However the other events fall, t receive interrupts store the next t shares of the bytes read, in order, into the buffer |
| `UartFifoRuns.RxIrqMoves` | sw/ibex/other_test/uart/core/src/uart.c:153-214 | The last receive interrupt masks itself; the chunk form becomes ready, the byte form does not |
| `UartFifoRuns.OthersLeaveRx` | sw/ibex/other_test/uart/core/src/uart.c:48-278 | Nothing but a receive interrupt moves or disturbs a receive |
| `UartFifoRuns.OnlyReceivesStore` | sw/ibex/other_test/uart/core/src/uart.c:153-214 | No event changes a cell but a store of the program to it and the receive interrupt that has a byte for it |
| `UartFifoRuns.RunKeepsLines` | sw/ibex/other_test/uart/core/src/uart.c:63-278 | Over any run no bit of mie changes but those of the two lines used at this baud rate, which are others above 115200 than up to it |
| `UartFifoRuns.PollReads` | sw/ibex/other_test/uart/core/src/uart.c:52 | A poll keeps the free space reported, never more than there is, and changes nothing else |
| `UartFifoDriver.Handle.Init` | sw/ibex/other_test/uart/core/src/uart.c:17-46 | Both directions become ready; a second call does nothing |
| `UartFifoDriver.Handle.WriteSome` | sw/ibex/other_test/uart/core/src/uart.c:54-59 | The inner loop writes the least of free space and bytes left, in order |
| `UartFifoDriver.Handle.TakeTurn` | sw/ibex/other_test/uart/core/src/uart.c:52-59 | One poll, then as many writes as the free space reported allows or bytes are left |
| `UartFifoDriver.Handle.Transmit` | sw/ibex/other_test/uart/core/src/uart.c:48-61 | The loops end with the whole buffer accepted in order and no byte lost |
| `UartFifoDriver.Handle.TransmitIT` | sw/ibex/other_test/uart/core/src/uart.c:63-98 | Starts a transmit with the one interrupt line the baud rate selects, line 21 above 115200 and line 19 up to it; no effect unless ready |
| `UartFifoDriver.Handle.ReceiveIT` | sw/ibex/other_test/uart/core/src/uart.c:116-151 | Starts a receive with the one interrupt line the baud rate selects, line 20 above 115200 and line 18 up to it; no effect unless ready |
| `UartFifoDriver.Handle.TxHalfEmptyIrqHandler` | sw/ibex/other_test/uart/core/src/uart.c:216-253 | The handler loop is the chunk step; transmit state alone changes |
| `UartFifoDriver.Handle.TxNotFullIrqHandler` | sw/ibex/other_test/uart/core/src/uart.c:255-278 | The handler is the byte step; transmit state alone changes |
| `UartFifoDriver.Handle.RxHalfFullIrqHandler` | sw/ibex/other_test/uart/core/src/uart.c:153-190 | The handler loop is the chunk receive step; receive state and buffer alone change |
| `UartFifoDriver.Handle.RxNotEmptyIrqHandler` | sw/ibex/other_test/uart/core/src/uart.c:192-214 | The handler is the byte receive step, its comparison at the end included |
| `UartNoFifoRuns.RunConserves` | sw/ibex/other_test/uart_no_fifo/core/src/uart.c:42-241 | Over any run of interrupts, calls, stores, callbacks and turns of blocking transmits in which no interrupt transmit is started inside the blocking transmit of the main program: bytes sent, and those yet to be sent, are what was sent and pending before, and then the buffers of all accepted transmits in order, those started by a transmit callback less their first byte |
| `UartNoFifoRuns.ReadyMeansSent` | sw/ibex/other_test/uart_no_fifo/core/src/uart.c:42-241 | Whenever in such a run no transmit of either kind is under way, exactly that has been sent |
| `UartNoFifoRuns.CallbackKeepsReady` | sw/ibex/other_test/uart_no_fifo/core/src/uart.c:214-233 | The completing interrupt leaves the driver ready, and loses no byte of what its callback was promised, if and only if the callback calls UART_Transmit_IT with no buffer that can be sent |
| `UartNoFifoRuns.OneByteLess` | sw/ibex/other_test/uart_no_fifo/core/src/uart.c:214-233 | Otherwise exactly one byte is lost |
| `UartNoFifoRuns.CallbackTransmitLosesFirst` | sw/ibex/other_test/uart_no_fifo/core/src/uart.c:214-233 | It is the first byte of the first transmit the callback starts: what is under way when the handler returns is the rest of that buffer |
| `UartNoFifoRuns.RxCallbackTransmit` | sw/ibex/other_test/uart_no_fifo/core/src/uart.c:187-198 | The first transmit a receive callback starts, for instance of the bytes just received, is under way in full, with nothing sent yet |
| `UartNoFifoRuns.TransmitUnderWay` | sw/ibex/other_test/uart_no_fifo/core/src/uart.c:112-136 | In every interleaving: after t <= Size transmit interrupts the rest of the buffer is still to be sent and nothing is reported; exactly the first t bytes are sent, in one piece, if and only if no blocking transmit it has cut into takes a turn |
| `UartNoFifoRuns.TransmitCompletes` | sw/ibex/other_test/uart_no_fifo/core/src/uart.c:209-241 | The transmit interrupt after those Size reports once, whatever its callback does, so a transmit takes Size + 1 interrupts; it is ready and masked when it returns if and only if the callback has started no transmit |
| `UartNoFifoRuns.TxDelivers` | sw/ibex/other_test/uart_no_fifo/core/src/uart.c:209-241 | t transmit interrupts send the next t bytes of a transmit under way, whoever started it; all else that is sent comes from turns of a blocking transmit it has cut into, and the bytes go out in one piece if and only if there are none |
| `UartNoFifoRuns.OthersLeaveTx` | sw/ibex/other_test/uart_no_fifo/core/src/uart.c:42-207 | No receive interrupt, call, store or receive callback moves or disturbs a transmit |
| `UartNoFifoRuns.LoopDelivers` | sw/ibex/other_test/uart_no_fifo/core/src/uart.c:99-109 | However the other events fall, t turns of the blocking transmit of the main program send the next t bytes of its buffer, in one piece if and only if no other event sends a byte in between |
| `UartNoFifoRuns.MixExample` | sw/ibex/other_test/uart_no_fifo/core/src/uart.c:88-136 | A one-byte transmit started by a receive callback inside a blocking transmit is accepted, and its byte goes out before the rest of that one |
| `UartNoFifoRuns.ReceiveCompletes` | sw/ibex/other_test/uart_no_fifo/core/src/uart.c:154-207 | In every interleaving: t receive interrupts store exactly the next t bytes read, in order, into the buffer; the last of Size masks, reports once and becomes ready |
| `UartNoFifoRuns.RxDelivers` | sw/ibex/other_test/uart_no_fifo/core/src/uart.c:181-207 | The same from any point of a receive already under way |
| `UartNoFifoRuns.RxIrqCompletes` | sw/ibex/other_test/uart_no_fifo/core/src/uart.c:187-198 | The last byte completes the receive whatever the callback tries to start; the callback finds the whole buffer filled |
| `UartNoFifoRuns.OthersLeaveRx` | sw/ibex/other_test/uart_no_fifo/core/src/uart.c:42-241 | No transmit interrupt, call, store or transmit callback moves or disturbs a receive |
| `UartNoFifoRuns.OnlyReceivesStore` | sw/ibex/other_test/uart_no_fifo/core/src/uart.c:42-241 | No event changes a cell but a store of the program to it and the receive interrupt whose byte is for it |
| `UartNoFifoRuns.OutsideStays` | sw/ibex/other_test/uart_no_fifo/core/src/uart.c:181-207 | While a receive is under way, cells outside its buffer that the program leaves alone keep their values |
| `UartNoFifoRuns.CallbackExample` | sw/ibex/other_test/uart_no_fifo/core/src/uart.c:214-233 | Two bytes started in the transmit callback: one is sent |
| `UartNoFifoRuns.ReceiveAgainExample` | sw/ibex/other_test/uart_no_fifo/core/src/uart.c:187-196 | A receive started in the receive callback: refused, and nothing is under way afterwards |
| `UartNoFifoRuns.ReceiveZeroExample` | sw/ibex/other_test/uart_no_fifo/core/src/uart.c:154-207 | A receive of Size 0: after one receive interrupt 65535 are left and it is still busy |
| `UartNoFifo.TakeKeepsGood` | sw/ibex/other_test/uart_no_fifo/core/src/uart.c:88-241 | In every reachable state the pointers of both directions stay inside their buffers |
| `UartNoFifo.BusyRxStays` | sw/ibex/other_test/uart_no_fifo/core/src/uart.c:154-179 | No sequence of calls disturbs a receive under way |
| `UartNoFifo.BusyTxStays` | sw/ibex/other_test/uart_no_fifo/core/src/uart.c:88-136 | No sequence of calls disturbs a transmit under way |
| `UartNoFifoControl.RunSwitches` | sw/ibex/other_test/uart_no_fifo/core/src/uart.c:42-241 | Over any run the enable and reset bits of both directions are what the calls made, in callbacks too, switch them to one after another; no transfer and no completion changes them |
| `UartNoFifoControl.RunSwitchesNone` | sw/ibex/other_test/uart_no_fifo/core/src/uart.c:88-241 | Without such calls the four bits stay as they are |
| `UartNoFifoControl.RxIrqKeepsReceiver` | sw/ibex/other_test/uart_no_fifo/core/src/uart.c:187-198 | A receive callback cannot switch its receiver on or off |
| `UartNoFifoControl.RunKeepsMasks` | sw/ibex/other_test/uart_no_fifo/core/src/uart.c:88-241 | In every reachable state each direction has its interrupt enabled exactly while it is busy |
| `UartNoFifoControl.NothingBeforeInit` | sw/ibex/other_test/uart_no_fifo/core/src/uart.c:42-179 | Before UART_Init all calls but the resets have no effect |
| `UartNoFifoDriver.Handle.Init` | sw/ibex/other_test/uart_no_fifo/core/src/uart.c:12-40 | Both directions become ready; a second call does nothing |
| `UartNoFifoDriver.Handle.TransmitBlocking` | sw/ibex/other_test/uart_no_fifo/core/src/uart.c:88-110 | Sends the buffer in order however long the transmitter stays busy; refused when busy, empty or NULL |
| `UartNoFifoDriver.Handle.BeginTransmit` | sw/ibex/other_test/uart_no_fifo/core/src/uart.c:88-99 | The blocking transmit begins as in runs; refused when busy, empty or NULL |
| `UartNoFifoDriver.Handle.TurnTransmit` | sw/ibex/other_test/uart_no_fifo/core/src/uart.c:100-107 | One turn of its loop is the step of runs, or nothing while the transmitter is busy |
| `UartNoFifoDriver.Handle.StartTransmit` | sw/ibex/other_test/uart_no_fifo/core/src/uart.c:112-136 | Sets up the transfer and enables its interrupt and nothing else; refused when busy, empty or NULL |
| `UartNoFifoDriver.Handle.StartReceive` | sw/ibex/other_test/uart_no_fifo/core/src/uart.c:154-179 | Sets up the transfer and enables its interrupt and nothing else; refused unless ready |
| `UartNoFifoDriver.Handle.Act` | sw/ibex/other_test/uart_no_fifo/core/src/uart.c:42-136 | Every call has the effect it has in runs; enables and disables change their one bit and need a ready direction, resets set theirs always |
| `UartNoFifoDriver.Handle.CpltCallback` | sw/ibex/other_test/uart_no_fifo/core/src/uart.c:193-225 | A callback that makes any sequence of calls and stores has their effects in order |
| `UartNoFifoDriver.Handle.RxNotEmptyIrqHandler` | sw/ibex/other_test/uart_no_fifo/core/src/uart.c:181-207 | The byte goes to its cell, pointer and counter are stepped last; at the last byte the interrupt alone is masked, the callback runs, then the state is ready; nothing when not receiving |
| `UartNoFifoDriver.Handle.TxNotFullIrqHandler` | sw/ibex/other_test/uart_no_fifo/core/src/uart.c:209-241 | The next byte is sent, or with none left the interrupt alone is masked, the state ready and then the callback runs; pointer and counter are stepped last; nothing when not transmitting |
| `PowerPins.AddPgPins` | pnr/scripts/add_pg_pins.py:27-65 | The loop writes the lines of the specification, each piece of output marked kept or added |
| `PowerPins.NothingLost` | pnr/scripts/add_pg_pins.py:33-65 | For every netlist, deleting exactly the added pieces gives back the input text in order |
| `PowerPins.InsertedOnce` | pnr/scripts/add_pg_pins.py:36-52 | The port list is inserted once if some line opens the module, else never; the inout line once if an input line follows such a line, else never |
| `PowerPins.WithoutHeader` | pnr/scripts/add_pg_pins.py:54-65 | Without a header the output is every line with its pins, and no ports |
| `PowerPins.WithHeaderOnly` | pnr/scripts/add_pg_pins.py:36-47 | The output is: the lines before with their pins; the first header up to and with its first parenthesis, the port list, the rest of the header; the lines after with their pins |
| `PowerPins.WithHeaderAndInput` | pnr/scripts/add_pg_pins.py:36-52 | The same with an input line after the header: the inout line stands directly before the first such line; later headers and inputs are only copied |
| `PowerPins.PinsFollow` | pnr/scripts/add_pg_pins.py:12-63 | Every copied instance line is followed at once by its own four pin lines, each pin on its own net, indented by four more, a comma after the last exactly for ixc013_b16m and ixc013_i16x |
| `PowerPins.FindParen` | pnr/scripts/add_pg_pins.py:39-40 | The first opening parenthesis of the line, or none |
| `PowerPins.RewriteLine` | pnr/scripts/add_pg_pins.py:36-65 | One turn of the loop: a first header is cut behind its first parenthesis with the port list in between; any other line is copied with its pins, the first input line after it with the inout line before it |
| `Heap.Allocator.Sbrk` | sw/ibex/other_test/uart/core/src/main.c:122-140 | A request whose sum, taken modulo 2^32, lies beyond the stack fails and changes nothing; any other gets the old end of the heap and moves it to that sum |
| `Heap.Allocator.Calls` | sw/ibex/other_test/uart/core/src/main.c:122-140 | A sequence of calls has the results and the heap end the lemmas below are about |
| `Heap.WrapIsAccepted` | sw/ibex/other_test/uart/core/src/main.c:133 | A single call, of either sign, answers by the true sum if and only if the sum stays in the address range, or wraps and is refused anyway |
| `Heap.AllAnswer` | sw/ibex/other_test/uart/core/src/main.c:122-140 | Every call of a sequence answers by the true sum if and only if that holds of each |
| `Heap.BlocksAdjacent` | sw/ibex/other_test/uart/core/src/main.c:133-139 | Over any such sequence, of either sign, a request fails exactly when it does not fit below the stack and then changes nothing; else its block starts where the heap ended and the heap ends after it |
| `Heap.BlocksInOrder` | sw/ibex/other_test/uart/core/src/main.c:122-140 | Of two granted requests, the later block starts beyond the earlier one if and only if the requests granted between them do not give back more than they take |
| `Heap.BlocksDisjoint` | sw/ibex/other_test/uart/core/src/main.c:122-140 | If nothing is given back, all blocks lie in request order between _end and _stack_bottom, and no two overlap |
| `Heap.WrapExample` | sw/ibex/other_test/uart/core/src/main.c:133 | On this memory map a request of nearly 2 GB is granted although it does not fit |
| `Timer.ShadowMeaning` | sw/ibex/common/drivers/v0.5/src/timer.c:3-41 | After any sequence of calls the shadow is the low four bits of the last prescaler set since the last init or clear, both enable bits exactly if timer_en was called since then, and nothing else |
| `Timer.RegistersMeaning` | sw/ibex/common/drivers/v0.5/src/timer.c:3-41 | After any calls CTRL is the flag bit alone if the last was an acknowledge, otherwise the prescaler and enable bits the calls since the last init or clear ask for; MOD is the last period set since the last init, else 0 |
| `Timer.AckThenSetRearms` | sw/ibex/common/drivers/v0.5/src/timer.c:17-36 | Acknowledging stops the timer; timer_set alone then re-arms it, with the new prescaler and period, exactly if it was armed before |
| `Timer.RearmExample` | sw/ibex/common/drivers/v0.5/src/timer.c:17-41 | Enabled, acknowledged and set: running, without a second timer_en |
| `Timer.Device.TimerInit` | sw/ibex/common/drivers/v0.5/src/timer.c:5-15 | Shadow and both registers cleared |
| `Timer.Device.TimerAckIntrq` | sw/ibex/common/drivers/v0.5/src/timer.c:17-20 | The flag bit is written and the shadow kept |
| `Timer.Device.TimerClearCtrl` | sw/ibex/common/drivers/v0.5/src/timer.c:22-25 | Shadow and control cleared, period kept |
| `Timer.Device.TimerSet` | sw/ibex/common/drivers/v0.5/src/timer.c:27-36 | Period and prescaler replaced, enable bits kept |
| `Timer.Device.TimerEn` | sw/ibex/common/drivers/v0.5/src/timer.c:38-41 | Enable bits set in the shadow and in CTRL, prescaler kept |
| `NullDetect.DetectsZeros` | sw/ibex/common/lib/newlib_build/riscv64-unknown-elf/include/sys/string.h:15-21 | For a word of any number of bytes, the result has 0x80 in exactly the zero bytes and 0 in all others |
| `NullDetect.AddsByBytes` | sw/ibex/common/lib/newlib_build/riscv64-unknown-elf/include/sys/string.h:20 | In the masked addition no carry crosses a byte |
| `NullDetect.Detect32IsDetect` | sw/ibex/common/lib/newlib_build/riscv64-unknown-elf/include/sys/string.h:17-20 | The 32-bit word operation is the byte-wise one, and is 0 exactly if no byte is 0 |
| `NullDetect.Detect64IsDetect` | sw/ibex/common/lib/newlib_build/riscv64-unknown-elf/include/sys/string.h:18-20 | The same for 64 bits and the doubled mask |
| `Endian.Decode16` | sw/ibex/common/lib/newlib_build/riscv64-unknown-elf/include/sys/endian.h:99-185 | Decoding undoes encoding, 16 bits, both orders |
| `Endian.Decode32` | sw/ibex/common/lib/newlib_build/riscv64-unknown-elf/include/sys/endian.h:107-196 | Decoding undoes encoding, 32 bits, both orders |
| `Endian.Decode64` | sw/ibex/common/lib/newlib_build/riscv64-unknown-elf/include/sys/endian.h:116-205 | Decoding undoes encoding, 64 bits, both orders |
| `Endian.Encode16` | sw/ibex/common/lib/newlib_build/riscv64-unknown-elf/include/sys/endian.h:99-185 | Encoding undoes decoding, 16 bits, both orders |
| `Endian.Encode32` | sw/ibex/common/lib/newlib_build/riscv64-unknown-elf/include/sys/endian.h:107-196 | Encoding undoes decoding, 32 bits, both orders |
| `Endian.Encode64` | sw/ibex/common/lib/newlib_build/riscv64-unknown-elf/include/sys/endian.h:116-205 | Encoding undoes decoding, 64 bits, both orders |
| `Endian.OrdersDiffer16` | sw/ibex/common/lib/newlib_build/riscv64-unknown-elf/include/sys/endian.h:99-130 | Big-endian decoding is the swap of little-endian decoding, 16 bits |
| `Endian.OrdersDiffer32` | sw/ibex/common/lib/newlib_build/riscv64-unknown-elf/include/sys/endian.h:107-139 | Big-endian decoding is the swap of little-endian decoding, 32 bits |
| `Endian.OrdersDiffer64` | sw/ibex/common/lib/newlib_build/riscv64-unknown-elf/include/sys/endian.h:116-147 | Big-endian decoding is the swap of little-endian decoding, 64 bits |
| `Endian.SwapsUndo` | sw/ibex/common/lib/newlib_build/riscv64-unknown-elf/include/machine/endian.h:28-52 | Each swap is its own inverse |
| `Endian.Significance16` | sw/ibex/common/lib/newlib_build/riscv64-unknown-elf/include/sys/endian.h:149-185 | Big-endian is most significant byte first and little-endian last, 16 bits: where a small value stands, and how shifting by a byte moves the bytes |
| `Endian.Significance32` | sw/ibex/common/lib/newlib_build/riscv64-unknown-elf/include/sys/endian.h:158-196 | The same for 32 bits |
| `Endian.Significance64` | sw/ibex/common/lib/newlib_build/riscv64-unknown-elf/include/sys/endian.h:169-205 | The same for 64 bits |
| `Endian.Be16Enc` | sw/ibex/common/lib/newlib_build/riscv64-unknown-elf/include/sys/endian.h:149-156 | Writes the two bytes addressed and no others |
| `Endian.Be32Enc` | sw/ibex/common/lib/newlib_build/riscv64-unknown-elf/include/sys/endian.h:158-167 | Writes the four bytes addressed and no others |
| `Endian.Be64Enc` | sw/ibex/common/lib/newlib_build/riscv64-unknown-elf/include/sys/endian.h:169-176 | Writes the eight bytes addressed and no others |
| `Endian.Le16Enc` | sw/ibex/common/lib/newlib_build/riscv64-unknown-elf/include/sys/endian.h:178-185 | Writes the two bytes addressed and no others |
| `Endian.Le32Enc` | sw/ibex/common/lib/newlib_build/riscv64-unknown-elf/include/sys/endian.h:187-196 | Writes the four bytes addressed and no others |
| `Endian.Le64Enc` | sw/ibex/common/lib/newlib_build/riscv64-unknown-elf/include/sys/endian.h:198-205 | Writes the eight bytes addressed and no others |

## Left out

- I2cMaster.Handle.Init: models only the state it leaves; the prescaler registers, the wait for a busy bus and the clearing of an old interrupt flag are not modelled.
- I2cMaster.Handle.AddressLoop: requires a slave that acknowledges its address at some time, because the loop does not end otherwise.
- I2cMaster.Handle.Transmit: requires a slave that acknowledges its address at some time, because the loop does not end otherwise.
- I2cMaster.Handle.Receive: requires a slave that acknowledges its address at some time, because the loop does not end otherwise.
- UartFifoDriver.Handle.Init: does not model the packing of SETUP.
- UartNoFifoDriver.Handle.Init: does not model the packing of SETUP.
- UartFifoDriver.Handle.Transmit: requires a line that makes room for the buffer within some number of polls; what holds on any line is UartFifo.BlockingConserves.
- UartNoFifoDriver.Handle.TransmitBlocking: the transmitter is busy for finitely many polls after each byte, because the loop does not end otherwise.
- An interrupt between the test of the busy bit and the write that follows it in the blocking transmit of the UART driver without FIFOs.
- The general registers saved by a handler's prologue, MPRV, and exceptions raised inside handlers.
- A second interrupt of the I2C core while its own handler runs, and calls interrupted in the middle of a register read-modify-write.
- A status flag left over from a blocking call when an interrupt transfer starts.
- The blocking receive of both UART drivers; the one with FIFOs does not check Size in its inner loop.
- UART parity, framing and overrun errors, and loss in the receive FIFO.
- The other copies of the I2C and UART drivers in the repository, whose state machines are the same.
- The regular expression and the file access of the netlist script.
- GPIO drivers, delay loops, test programs, linker and startup code, and the rest of the C library headers.
