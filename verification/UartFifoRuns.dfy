/** Whole runs of the FIFO driver: both directions at once, with calls and stores of the program in
  * between, and blocking transmits that interrupts may cut into anywhere. */
module UartFifoRuns {
  import opened Memory
  import opened UartFifo

  /** The line, the bytes received, and the baud rate, which selects the interrupts. */
  datatype Board = Board(line: Line, input: nat -> Byte, baud: nat)

  predicate Fast(b: Board) {
    b.baud > IT_FIFO_THRESHOLD
  }

  function TxLine(b: Board): nat {
    if Fast(b) then TX_NOT_FULL else TX_HALF_EMPTY
  }

  function RxLine(b: Board): nat {
    if Fast(b) then RX_NOT_EMPTY else RX_HALF_FULL
  }

  /** Bytes an interrupt moves at most. */
  function Share(b: Board): nat {
    if Fast(b) then 1 else 8
  }

  /** Shares of `t` interrupts. */
  function Shares(b: Board, t: nat): nat {
    if Fast(b) then t else 8 * t
  }

  /** How many bytes a transfer of Size moves. */
  function Total(b: Board, size: U16): nat {
    if Fast(b) then Rounds(size) else size
  }

  /** The main program's blocking UART_Transmit: the bytes left, and how many of them the last poll
    * still lets it write. With none left there is no such call. */
  datatype Call = Call(ptr: nat, left: nat, free: nat)

  datatype Sys = Sys(u: Uart, call: Call)

  /** Bytes that will be written without another poll. */
  function Open(c: Call): nat {
    Least(c.free, c.left)
  }

  /** Interrupts; the interrupt calls; the main program's blocking transmit, by its polls and writes; a
    * blocking transmit in a handler, which nothing cuts into, and which returns with the FIFO in
    * state `end`; a store of the program. */
  datatype Event =
    | TxIrq(idle: nat) | RxIrq
    | TransmitIT(ptr: nat, size: U16) | ReceiveIT(ptr: nat, size: U16)
    | Begin(ptr: nat, size: U16) | Poll | Write
    | Transmit(ptr: nat, size: U16, turns: nat, end: Fifo)
    | Poke(ptr: nat, value: Byte)

  function TxLeft(b: Board, u: Uart): nat {
    if TxLine(b) in u.mie then Total(b, u.tx.count) else 0
  }

  function RxLeft(b: Board, u: Uart): nat {
    if RxLine(b) in u.mie then Total(b, u.rx.count) else 0
  }

  /** Where the buffer of a receive begins. */
  function RxStart(b: Board, u: Uart): int {
    u.rx.ptr + RxLeft(b, u) - Total(b, u.rx.size)
  }

  predicate GoodUart(b: Board, u: Uart) {
    && (u.gState == STATE_BUSY_TX <==> TxLine(b) in u.mie)
    && (RxLine(b) in u.mie ==> u.rxState == STATE_BUSY_RX)
    && u.tx.ptr + TxLeft(b, u) <= |u.mem|
    && (RxLine(b) in u.mie ==> u.rx.ptr + RxLeft(b, u) <= |u.mem| && 0 <= RxStart(b, u) <= u.rx.ptr)
    && Apart(u.tx.ptr, TxLeft(b, u), u.rx.ptr, RxLeft(b, u))
  }

  predicate Good(b: Board, s: Sys) {
    GoodUart(b, s.u) && s.call.ptr + s.call.left <= |s.u.mem|
  }

  /** An interrupt is enabled, and finds room for its share; buffers lie in memory, those of interrupt
    * transfers in flight at the same time apart; the program leaves them alone. */
  predicate Possible(b: Board, s: Sys, e: Event) {
    var u := s.u;
    match e
    case TxIrq(idle) => TxLine(b) in u.mie && Idle(u, idle).fifo.room >= Share(b)
    case RxIrq => RxLine(b) in u.mie
    case TransmitIT(ptr, size) =>
      && ptr + Total(b, size) <= |u.mem|
      && (u.gState == STATE_READY ==> Apart(ptr, Total(b, size), u.rx.ptr, RxLeft(b, u)))
    case ReceiveIT(ptr, size) =>
      && ptr + Total(b, size) <= |u.mem|
      && (u.rxState == STATE_READY ==> Apart(ptr, Total(b, size), u.tx.ptr, TxLeft(b, u)))
    case Begin(ptr, size) => s.call.left == 0 && ptr + size <= |u.mem|
    case Poll => s.call.left > 0 && s.call.free == 0
    case Write => s.call.left > 0 && s.call.free > 0
    case Transmit(ptr, size, turns, end) =>
      ptr + size <= |u.mem| && Ends(b.line, u.fifo, u.mem, ptr, size, turns, end)
    case Poke(ptr, _) =>
      && ptr < |u.mem|
      && !(u.tx.ptr <= ptr < u.tx.ptr + TxLeft(b, u))
      && (RxLine(b) in u.mie ==> !(RxStart(b, u) <= ptr < RxStart(b, u) + Total(b, u.rx.size)))
  }

  function TxHandler(b: Board, u: Uart, idle: nat): Uart
    requires GoodUart(b, u) && (Fast(b) ==> TxLine(b) in u.mie)
  {
    if Fast(b) then NotFull(b.line, Idle(u, idle)) else HalfEmpty(b.line, Idle(u, idle))
  }

  function RxHandler(b: Board, u: Uart): Uart
    requires GoodUart(b, u) && RxLine(b) in u.mie
  {
    if Fast(b) then NotEmpty(b.input, u) else HalfFull(b.input, u)
  }

  /** Line 52: the free space is read once for the writes that follow. */
  function Polled(b: Board, s: Sys): Sys {
    Sys(s.u.(fifo := Tick(b.line, s.u.fifo)), s.call.(free := Reported(b.line, s.u.fifo)))
  }

  /** Lines 56-58: one byte. */
  function Written(b: Board, s: Sys): Sys
    requires Open(s.call) > 0 && s.call.ptr < |s.u.mem|
  {
    Sys(s.u.(fifo := Put(b.line, s.u.fifo, s.u.mem[s.call.ptr])),
        Call(s.call.ptr + 1, s.call.left - 1, s.call.free - 1))
  }

  function Take(b: Board, s: Sys, e: Event): (v: Sys)
    requires Good(b, s) && Possible(b, s, e)
    ensures |v.u.mem| == |s.u.mem|
  {
    match e
    case TxIrq(idle) => s.(u := TxHandler(b, s.u, idle))
    case RxIrq => s.(u := RxHandler(b, s.u))
    case TransmitIT(ptr, size) => s.(u := StartTransmit(s.u, b.baud, ptr, size))
    case ReceiveIT(ptr, size) => s.(u := StartReceive(s.u, b.baud, ptr, size))
    case Begin(ptr, size) => s.(call := Call(ptr, size, 0))
    case Poll => Polled(b, s)
    case Write => Written(b, s)
    case Transmit(_, _, _, end) => s.(u := s.u.(fifo := end))
    case Poke(ptr, value) => s.(u := s.u.(mem := s.u.mem[ptr := value]))
  }

  lemma TxIrqKeepsGood(b: Board, u: Uart, idle: nat)
    requires GoodUart(b, u) && TxLine(b) in u.mie
    ensures GoodUart(b, TxHandler(b, u, idle))
  {
  }

  lemma RxIrqKeepsGood(b: Board, u: Uart)
    requires GoodUart(b, u) && RxLine(b) in u.mie
    ensures GoodUart(b, RxHandler(b, u))
  {
  }

  lemma TransmitKeepsGood(b: Board, s: Sys, ptr: nat, size: U16)
    requires Good(b, s) && Possible(b, s, TransmitIT(ptr, size))
    ensures GoodUart(b, StartTransmit(s.u, b.baud, ptr, size))
  {
  }

  lemma ReceiveKeepsGood(b: Board, s: Sys, ptr: nat, size: U16)
    requires Good(b, s) && Possible(b, s, ReceiveIT(ptr, size))
    ensures GoodUart(b, StartReceive(s.u, b.baud, ptr, size))
  {
  }

  /** In every reachable state the pointers of both directions and of the blocking transmit stay inside
    * their buffers, and transmitting is the same as having the transmit interrupt enabled. */
  lemma TakeKeepsGood(b: Board, s: Sys, e: Event)
    requires Good(b, s) && Possible(b, s, e)
    ensures Good(b, Take(b, s, e))
  {
    match e
    case TxIrq(idle) => TxIrqKeepsGood(b, s.u, idle);
    case RxIrq => RxIrqKeepsGood(b, s.u);
    case TransmitIT(ptr, size) => TransmitKeepsGood(b, s, ptr, size);
    case ReceiveIT(ptr, size) => ReceiveKeepsGood(b, s, ptr, size);
    case _ =>
  }

  predicate PossibleRun(b: Board, s: Sys, es: seq<Event>)
    requires Good(b, s)
    decreases |es|
  {
    es != [] ==>
      && Possible(b, s, es[0])
      && (TakeKeepsGood(b, s, es[0]); PossibleRun(b, Take(b, s, es[0]), es[1..]))
  }

  function Run(b: Board, s: Sys, es: seq<Event>): (v: Sys)
    requires Good(b, s) && PossibleRun(b, s, es)
    ensures Good(b, v) && |v.u.mem| == |s.u.mem|
    decreases |es|
  {
    if es == [] then s
    else
      TakeKeepsGood(b, s, es[0]);
      Run(b, Take(b, s, es[0]), es[1..])
  }

  lemma RunFirst(b: Board, s: Sys, e: Event, rest: seq<Event>) returns (v: Sys)
    requires Good(b, s) && Possible(b, s, e)
    ensures v == Take(b, s, e) && Good(b, v)
    ensures PossibleRun(b, v, rest) ==>
      PossibleRun(b, s, [e] + rest) && Run(b, s, [e] + rest) == Run(b, v, rest)
  {
    TakeKeepsGood(b, s, e);
    v := Take(b, s, e);
    assert ([e] + rest)[1..] == rest;
  }

  function TxIrqs(es: seq<Event>): nat
    decreases |es|
  {
    if es == [] then 0 else (if es[0].TxIrq? then 1 else 0) + TxIrqs(es[1..])
  }

  function RxIrqs(es: seq<Event>): nat
    decreases |es|
  {
    if es == [] then 0 else (if es[0].RxIrq? then 1 else 0) + RxIrqs(es[1..])
  }

  /** Bytes written by blocking transmits. */
  function Blocking(es: seq<Event>): nat
    decreases |es|
  {
    if es == [] then 0
    else (if es[0].Transmit? then es[0].size as nat else if es[0].Write? then 1 else 0) + Blocking(es[1..])
  }

  // ---- What else an event does ----

  /** An event enables or masks no line but those of the two directions at this baud rate. */
  lemma TakeKeepsLines(b: Board, s: Sys, e: Event, bit: nat)
    requires Good(b, s) && Possible(b, s, e) && bit != TxLine(b) && bit != RxLine(b)
    ensures bit in Take(b, s, e).u.mie <==> bit in s.u.mie
  {
  }

  /** Over any run all other bits of mie stay, those of the other two UART lines included; which two are
    * used changes above 115200 baud. */
  lemma {:induction false} RunKeepsLines(b: Board, s: Sys, es: seq<Event>, bit: nat)
    requires Good(b, s) && PossibleRun(b, s, es)
    requires bit != (if b.baud > 115200 then 21 else 19) && bit != (if b.baud > 115200 then 20 else 18)
    ensures bit in Run(b, s, es).u.mie <==> bit in s.u.mie
    decreases |es|
  {
    if es != [] {
      TakeKeepsGood(b, s, es[0]);
      TakeKeepsLines(b, s, es[0], bit);
      RunKeepsLines(b, Take(b, s, es[0]), es[1..], bit);
    }
  }

  /** A store of the program changes its cell and nothing else. */
  lemma PokeStores(b: Board, s: Sys, ptr: nat, value: Byte) returns (v: Sys)
    requires Good(b, s) && Possible(b, s, Poke(ptr, value))
    ensures v == Take(b, s, Poke(ptr, value)) && v == s.(u := s.u.(mem := s.u.mem[ptr := value]))
  {
    v := Take(b, s, Poke(ptr, value));
  }

  /** A poll keeps what the FIFO register reports, never more than the room there is, and changes nothing
    * else. */
  lemma PollReads(b: Board, s: Sys) returns (v: Sys)
    requires Good(b, s) && Possible(b, s, Poll)
    ensures v == Take(b, s, Poll) && v == s.(u := s.u.(fifo := v.u.fifo), call := s.call.(free := v.call.free))
    ensures var f := s.u.fifo;
      && v.u.fifo == f.(clock := f.clock + 1, room := Least(f.room + b.line.takes(f.clock), 15))
      && v.call.free == Least(b.line.reports(f.clock), v.u.fifo.room)
  {
    v := Take(b, s, Poll);
  }

  // ---- What is handed over, and what is lost ----

  /** What the interrupt transmit under way has yet to hand over. */
  function Pending(b: Board, u: Uart): (bytes: seq<Byte>)
    requires GoodUart(b, u)
    ensures |bytes| == TxLeft(b, u)
  {
    u.mem[u.tx.ptr..u.tx.ptr + TxLeft(b, u)]
  }

  /** How many bytes the next transmit interrupt writes. */
  function Due(b: Board, u: Uart): nat {
    Least(Share(b), TxLeft(b, u))
  }

  /** The bytes an event writes to the FIFO. */
  function Out(b: Board, s: Sys, e: Event): seq<Byte>
    requires Good(b, s) && Possible(b, s, e)
  {
    match e
    case TxIrq(_) => Pending(b, s.u)[..Due(b, s.u)]
    case Transmit(ptr, size, _, _) => s.u.mem[ptr..ptr + size]
    case Write => [s.u.mem[s.call.ptr]]
    case _ => []
  }

  function Outs(b: Board, s: Sys, es: seq<Event>): seq<Byte>
    requires Good(b, s) && PossibleRun(b, s, es)
    decreases |es|
  {
    if es == [] then []
    else
      TakeKeepsGood(b, s, es[0]);
      Out(b, s, es[0]) + Outs(b, Take(b, s, es[0]), es[1..])
  }

  /** Bytes accepted or lost. */
  function Seen(f: Fifo): nat {
    |f.accepted| + f.lost
  }

  lemma {:induction false} PutRangeSeen(l: Line, f: Fifo, mem: seq<Byte>, ptr: nat, m: nat)
    requires ptr + m <= |mem|
    ensures Seen(PutRange(l, f, mem, ptr, m)) == Seen(f) + m
    decreases m
  {
    if m > 0 {
      PutRangeSeen(l, f, mem, ptr, m - 1);
    }
  }

  lemma DueAhead(b: Board, u: Uart)
    requires GoodUart(b, u)
    ensures Pending(b, u)[..Due(b, u)] == u.mem[u.tx.ptr..u.tx.ptr + Due(b, u)]
  {
  }

  /** A transmit interrupt writes what is due. */
  lemma IrqWrites(b: Board, u: Uart, idle: nat) returns (v: Uart)
    requires GoodUart(b, u) && TxLine(b) in u.mie
    ensures v == TxHandler(b, u, idle)
    ensures v.fifo == PutRange(b.line, Idle(u, idle).fifo, u.mem, u.tx.ptr, Due(b, u))
    ensures Pending(b, u)[..Due(b, u)] == u.mem[u.tx.ptr..u.tx.ptr + Due(b, u)]
  {
    v := TxHandler(b, u, idle);
    DueAhead(b, u);
    if Fast(b) {
      assert Due(b, u) == 1;
      OnePut(b.line, Idle(u, idle).fifo, u.mem, u.tx.ptr);
    } else {
      assert Due(b, u) == Least(8, u.tx.count);
    }
  }

  lemma OnePut(l: Line, f: Fifo, mem: seq<Byte>, ptr: nat)
    requires ptr < |mem|
    ensures PutRange(l, f, mem, ptr, 1) == Put(l, f, mem[ptr])
  {
    assert PutRange(l, f, mem, ptr, 0) == f;
  }

  lemma StepSeen(b: Board, s: Sys, e: Event) returns (v: Sys)
    requires Good(b, s) && Possible(b, s, e)
    ensures v == Take(b, s, e) && Seen(v.u.fifo) == Seen(s.u.fifo) + |Out(b, s, e)|
  {
    v := Take(b, s, e);
    match e
    case TxIrq(idle) =>
      var w := IrqWrites(b, s.u, idle);
      PutRangeSeen(b.line, Idle(s.u, idle).fifo, s.u.mem, s.u.tx.ptr, Due(b, s.u));
    case Transmit(ptr, size, turns, end) => BlockingDelivers(b.line, s.u.fifo, s.u.mem, ptr, size, turns, end);
    case _ =>
  }

  /** Whatever cuts into whatever: every byte handed over is either accepted or lost. */
  lemma {:induction false} RunAccounts(b: Board, s: Sys, es: seq<Event>) returns (w: Sys)
    requires Good(b, s) && PossibleRun(b, s, es)
    ensures w == Run(b, s, es) && Seen(w.u.fifo) == Seen(s.u.fifo) + |Outs(b, s, es)|
    decreases |es|
  {
    w := s;
    if es != [] {
      TakeKeepsGood(b, s, es[0]);
      w := StepSeen(b, s, es[0]);
      w := RunAccounts(b, w, es[1..]);
    }
  }

  /** There is room for all that will be written without another poll. */
  predicate Roomy(s: Sys) {
    Open(s.call) <= s.u.fifo.room
  }

  /** What is handed over beside the blocking transmit leaves room for what that will write without
    * another poll: certainly if that is nothing. */
  predicate Covered(b: Board, s: Sys, e: Event) {
    match e
    case TxIrq(idle) => Open(s.call) == 0 || Due(b, s.u) + Open(s.call) <= Idle(s.u, idle).fifo.room
    case Transmit(_, size, _, _) => Open(s.call) == 0 || size == 0
    case _ => true
  }

  predicate CoveredRun(b: Board, s: Sys, es: seq<Event>)
    requires Good(b, s) && PossibleRun(b, s, es)
    decreases |es|
  {
    es != [] ==>
      && Covered(b, s, es[0])
      && (TakeKeepsGood(b, s, es[0]); CoveredRun(b, Take(b, s, es[0]), es[1..]))
  }

  lemma IrqHandsOver(b: Board, s: Sys, idle: nat) returns (v: Sys)
    requires Good(b, s) && Possible(b, s, TxIrq(idle)) && Roomy(s) && Covered(b, s, TxIrq(idle))
    ensures v == Take(b, s, TxIrq(idle)) && Roomy(v)
    ensures v.u.fifo.accepted == s.u.fifo.accepted + Out(b, s, TxIrq(idle)) && v.u.fifo.lost == s.u.fifo.lost
  {
    var w := IrqWrites(b, s.u, idle);
    PutRangeFits(b.line, Idle(s.u, idle).fifo, s.u.mem, s.u.tx.ptr, Due(b, s.u));
    v := s.(u := w);
  }

  lemma StepHandsOver(b: Board, s: Sys, e: Event) returns (v: Sys)
    requires Good(b, s) && Possible(b, s, e) && Roomy(s) && Covered(b, s, e)
    ensures v == Take(b, s, e) && Roomy(v)
    ensures v.u.fifo.accepted == s.u.fifo.accepted + Out(b, s, e) && v.u.fifo.lost == s.u.fifo.lost
  {
    v := Take(b, s, e);
    match e
    case TxIrq(idle) => v := IrqHandsOver(b, s, idle);
    case Write => PutFits(b.line, s.u.fifo, s.u.mem[s.call.ptr]);
    case Transmit(ptr, size, turns, end) => BlockingDelivers(b.line, s.u.fifo, s.u.mem, ptr, size, turns, end);
    case _ =>
  }

  /** In any run in which whatever cuts into a blocking transmit leaves it room for the rest of its
    * last poll, no byte is lost on any line, and the FIFO accepts exactly what is handed over. */
  lemma {:induction false} RunHandsOver(b: Board, s: Sys, es: seq<Event>) returns (w: Sys)
    requires Good(b, s) && PossibleRun(b, s, es) && Roomy(s) && CoveredRun(b, s, es)
    ensures w == Run(b, s, es) && Roomy(w)
    ensures w.u.fifo.accepted == s.u.fifo.accepted + Outs(b, s, es) && w.u.fifo.lost == s.u.fifo.lost
    decreases |es|
  {
    w := s;
    if es != [] {
      TakeKeepsGood(b, s, es[0]);
      var v := StepHandsOver(b, s, es[0]);
      w := RunHandsOver(b, v, es[1..]);
      Chained(v.u.fifo.accepted, s.u.fifo.accepted, Out(b, s, es[0]), w.u.fifo.accepted, Outs(b, v, es[1..]));
    }
  }

  // ---- Exactly when a transmit interrupt inside a blocking transmit loses bytes ----

  /** A line that takes nothing. */
  ghost predicate Stuck(l: Line) {
    forall t :: l.takes(t) == 0
  }

  function Excess(m: nat, room: nat): nat {
    if m > room then m - room else 0
  }

  lemma {:induction false} StuckPuts(l: Line, f: Fifo, mem: seq<Byte>, ptr: nat, m: nat) returns (g: Fifo)
    requires ptr + m <= |mem| && Stuck(l)
    ensures g == PutRange(l, f, mem, ptr, m)
    ensures g.lost == f.lost + Excess(m, f.room) && g.room == f.room - Least(m, f.room)
    decreases m
  {
    g := f;
    if m > 0 {
      g := StuckPuts(l, f, mem, ptr, m - 1);
      g := Put(l, g, mem[ptr + m - 1]);
    }
  }

  lemma {:induction false} PutFirst(l: Line, f: Fifo, mem: seq<Byte>, ptr: nat, m: nat)
    requires 0 < m && ptr + m <= |mem|
    ensures PutRange(l, f, mem, ptr, m) == PutRange(l, Put(l, f, mem[ptr]), mem, ptr + 1, m - 1)
    decreases m
  {
    if m == 1 {
      OnePut(l, f, mem, ptr);
    } else {
      PutFirst(l, f, mem, ptr, m - 1);
    }
  }

  function Writes(c: nat): (es: seq<Event>)
    ensures |es| == c
  {
    seq(c, i => Write)
  }

  /** The inner loop, writing `c` bytes. */
  lemma {:induction false} InnerLoop(b: Board, s: Sys, c: nat) returns (w: Sys)
    requires Good(b, s) && c <= Open(s.call)
    ensures PossibleRun(b, s, Writes(c)) && w == Run(b, s, Writes(c))
    ensures w.u == s.u.(fifo := PutRange(b.line, s.u.fifo, s.u.mem, s.call.ptr, c))
    ensures w.call == Call(s.call.ptr + c, s.call.left - c, s.call.free - c)
    decreases c
  {
    w := s;
    if c > 0 {
      assert Writes(c) == [Write] + Writes(c - 1);
      w := RunFirst(b, s, Write, Writes(c - 1));
      w := InnerLoop(b, w, c - 1);
      PutFirst(b.line, s.u.fifo, s.u.mem, s.call.ptr, c);
    }
  }

  /** If nothing cuts in, a poll and the writes it allows are one turn of the blocking form. */
  lemma TurnByEvents(b: Board, s: Sys) returns (w: Sys)
    requires Good(b, s) && s.call.left > 0 && s.call.free == 0
    ensures var m, es := Chunk(b.line, s.u.fifo, s.call.left), [Poll] + Writes(Chunk(b.line, s.u.fifo, s.call.left));
      && PossibleRun(b, s, es) && w == Run(b, s, es)
      && w.u == s.u.(fifo := Turn(b.line, s.u.fifo, s.u.mem, s.call.ptr, s.call.left))
      && w.call.ptr == s.call.ptr + m && w.call.left == s.call.left - m
      && (w.call.left > 0 ==> w.call.free == 0)
  {
    var m := Chunk(b.line, s.u.fifo, s.call.left);
    w := RunFirst(b, s, Poll, Writes(m));
    w := InnerLoop(b, w, m);
  }

  lemma StuckIrq(b: Board, s: Sys) returns (v: Sys)
    requires Good(b, s) && Possible(b, s, TxIrq(0)) && Stuck(b.line)
    ensures v == Take(b, s, TxIrq(0)) && v.call == s.call && v.u.mem == s.u.mem
    ensures v.u.fifo.lost == s.u.fifo.lost && v.u.fifo.room == s.u.fifo.room - Due(b, s.u)
  {
    var u := IrqWrites(b, s.u, 0);
    var f := StuckPuts(b.line, Idle(s.u, 0).fifo, s.u.mem, s.u.tx.ptr, Due(b, s.u));
    v := s.(u := u);
  }

  /** On a line that takes nothing, a transmit interrupt that cuts into a blocking transmit costs it
    * exactly what does not fit: its share and the rest of the last poll, less the room. So it loses
    * no byte, on this and (by RunHandsOver) on any line, exactly if it is covered. */
  lemma CutInLoses(b: Board, s: Sys) returns (w: Sys)
    requires Good(b, s) && Possible(b, s, TxIrq(0)) && Stuck(b.line)
    ensures var es := [TxIrq(0)] + Writes(Open(s.call));
      PossibleRun(b, s, es) && w == Run(b, s, es)
    ensures w.u.fifo.lost == s.u.fifo.lost + Excess(Due(b, s.u) + Open(s.call), s.u.fifo.room)
    ensures w.u.fifo.lost == s.u.fifo.lost <==> Covered(b, s, TxIrq(0))
    ensures w.call.left == s.call.left - Open(s.call)
  {
    var c := Open(s.call);
    var v := RunFirst(b, s, TxIrq(0), Writes(c));
    v := StuckIrq(b, s);
    w := InnerLoop(b, v, c);
    var g := StuckPuts(b.line, v.u.fifo, v.u.mem, v.call.ptr, c);
  }

  /** An empty FIFO on such a line; a blocking transmit of fifteen bytes polls it, and before its
    * writes the half-empty interrupt of a transmit is taken: eight bytes are lost. */
  lemma CutInExample(b: Board, s: Sys, ptr: nat) returns (w: Sys)
    requires Good(b, s) && !Fast(b) && Stuck(b.line) && (forall t :: b.line.reports(t) == 15)
    requires s.u.fifo.room == 15 && s.call.left == 0 && ptr + 15 <= |s.u.mem| && TxLeft(b, s.u) >= 8
    ensures var es := [Begin(ptr, 15)] + ([Poll] + ([TxIrq(0)] + Writes(15)));
      PossibleRun(b, s, es) && w == Run(b, s, es)
    ensures w.u.fifo.lost == s.u.fifo.lost + 8 && w.call.left == 0
  {
    var rest := [TxIrq(0)] + Writes(15);
    var begun := RunFirst(b, s, Begin(ptr, 15), [Poll] + rest);
    var polled := RunFirst(b, begun, Poll, rest);
    assert polled.call == Call(ptr, 15, 15) && polled.u.fifo.room == 15;
    w := CutInLoses(b, polled);
  }

  // ---- Transmit ----

  /** An interrupt transmit of `bytes` is under way, m of them handed over. */
  predicate TxAt(b: Board, s: Sys, bytes: seq<Byte>, m: nat) {
    Good(b, s) && TxLine(b) in s.u.mie && m < |bytes| && Pending(b, s.u) == bytes[m..]
  }

  /** Nothing but a transmit interrupt moves an interrupt transmit. */
  lemma OthersLeaveTx(b: Board, s: Sys, e: Event, bytes: seq<Byte>, m: nat) returns (v: Sys)
    requires TxAt(b, s, bytes, m) && Possible(b, s, e) && !e.TxIrq?
    ensures v == Take(b, s, e) && TxAt(b, v, bytes, m) && v.u.gState == STATE_BUSY_TX
  {
    TakeKeepsGood(b, s, e);
    v := Take(b, s, e);
    assert Pending(b, v.u) == Pending(b, s.u);
  }

  lemma TxSends(b: Board, u: Uart, idle: nat) returns (v: Uart)
    requires GoodUart(b, u) && TxLine(b) in u.mie && TxLeft(b, u) > 0
    ensures v == TxHandler(b, u, idle) && v.mem == u.mem
    ensures Due(b, u) < TxLeft(b, u) ==>
      TxLine(b) in v.mie && TxLeft(b, v) == TxLeft(b, u) - Due(b, u) && v.tx.ptr == u.tx.ptr + Due(b, u)
    ensures Due(b, u) == TxLeft(b, u) ==> v.gState == STATE_READY && TxLine(b) !in v.mie
  {
    v := TxHandler(b, u, idle);
  }

  lemma PendingMoves(b: Board, u: Uart, v: Uart)
    requires GoodUart(b, u) && GoodUart(b, v) && v.mem == u.mem && Due(b, u) <= TxLeft(b, u)
    requires TxLeft(b, v) == TxLeft(b, u) - Due(b, u) && v.tx.ptr == u.tx.ptr + Due(b, u)
    ensures Pending(b, v) == Pending(b, u)[Due(b, u)..]
  {
  }

  lemma TxIrqOut(b: Board, s: Sys, idle: nat, bytes: seq<Byte>, m: nat) returns (n: nat)
    requires TxAt(b, s, bytes, m) && Possible(b, s, TxIrq(idle))
    ensures n == Least(m + Share(b), |bytes|) == m + Due(b, s.u) && TxLeft(b, s.u) == |bytes| - m
    ensures Out(b, s, TxIrq(idle)) == bytes[m..n] && Pending(b, s.u)[n - m..] == bytes[n..]
  {
    n := Least(m + Share(b), |bytes|);
    assert |Pending(b, s.u)| == |bytes| - m;
  }

  lemma TxIrqMoves(b: Board, s: Sys, idle: nat, bytes: seq<Byte>, m: nat) returns (v: Sys, n: nat)
    requires TxAt(b, s, bytes, m) && Possible(b, s, TxIrq(idle))
    ensures v == Take(b, s, TxIrq(idle)) && n == Least(m + Share(b), |bytes|)
    ensures Out(b, s, TxIrq(idle)) == bytes[m..n]
    ensures n < |bytes| ==> TxAt(b, v, bytes, n)
    ensures n == |bytes| ==> v.u.gState == STATE_READY && TxLine(b) !in v.u.mie
  {
    TakeKeepsGood(b, s, TxIrq(idle));
    n := TxIrqOut(b, s, idle, bytes, m);
    var u := TxSends(b, s.u, idle);
    v := s.(u := u);
    if n < |bytes| {
      PendingMoves(b, s.u, u);
    }
  }

  lemma TxStep(b: Board, s: Sys, e: Event, bytes: seq<Byte>, m: nat) returns (v: Sys, n: nat)
    requires TxAt(b, s, bytes, m) && Possible(b, s, e) && (e.TxIrq? ==> m + Share(b) < |bytes|)
    ensures v == Take(b, s, e) && n == (if e.TxIrq? then m + Share(b) else m) && TxAt(b, v, bytes, n)
    ensures |Out(b, s, e)| == n - m + Blocking([e])
    ensures |Out(b, s, e)| == n - m ==> Out(b, s, e) == bytes[m..n]
  {
    assert [e][1..] == [];
    if e.TxIrq? {
      v, n := TxIrqMoves(b, s, e.idle, bytes, m);
    } else {
      v := OthersLeaveTx(b, s, e, bytes, m);
      n := m;
    }
  }

  lemma Pieces(bytes: seq<Byte>, l: nat, m: nat, n: nat)
    requires l <= m <= n <= |bytes|
    ensures bytes[l..m] + bytes[m..n] == bytes[l..n]
  {
  }

  lemma BlockingFirst(es: seq<Event>)
    requires es != []
    ensures Blocking(es) == Blocking([es[0]]) + Blocking(es[1..])
  {
    assert [es[0]][1..] == [];
  }

  /** However the other events fall, t transmit interrupts hand over the next t shares of the buffer;
    * all else that is handed over meanwhile comes from blocking transmits. */
  lemma {:induction false} TxDelivers(b: Board, s: Sys, es: seq<Event>, bytes: seq<Byte>, m: nat)
    returns (v: Sys, n: nat)
    requires TxAt(b, s, bytes, m) && PossibleRun(b, s, es) && m + Shares(b, TxIrqs(es)) < |bytes|
    ensures v == Run(b, s, es) && n == m + Shares(b, TxIrqs(es)) && TxAt(b, v, bytes, n)
    ensures |Outs(b, s, es)| == n - m + Blocking(es)
    ensures Blocking(es) == 0 ==> Outs(b, s, es) == bytes[m..n]
    decreases |es|
  {
    v, n := s, m;
    if es != [] {
      var k;
      BlockingFirst(es);
      v, k := TxStep(b, s, es[0], bytes, m);
      v, n := TxDelivers(b, v, es[1..], bytes, k);
      Pieces(bytes, m, k, n);
    }
  }

  /** From m bytes on: the last interrupt makes the driver ready and masks itself, no byte was lost, and
    * the FIFO accepted exactly the rest of the buffer, if and only if no byte of a blocking transmit
    * was written in between. */
  lemma RestInOnePiece(b: Board, s: Sys, es: seq<Event>, idle: nat, bytes: seq<Byte>, m: nat) returns (v: Sys, w: Sys)
    requires TxAt(b, s, bytes, m) && PossibleRun(b, s, es) && Roomy(s) && CoveredRun(b, s, es)
    requires m + Shares(b, TxIrqs(es)) < |bytes| <= m + Shares(b, TxIrqs(es)) + Share(b)
    requires Possible(b, Run(b, s, es), TxIrq(idle)) && Covered(b, Run(b, s, es), TxIrq(idle))
    ensures v == Run(b, s, es) && w == Take(b, v, TxIrq(idle))
    ensures w.u.gState == STATE_READY && TxLine(b) !in w.u.mie && w.u.fifo.lost == s.u.fifo.lost
    ensures w.u.fifo.accepted == s.u.fifo.accepted + bytes[m..] <==> Blocking(es) == 0
  {
    v := RunHandsOver(b, s, es);
    var x, n := TxDelivers(b, s, es, bytes, m);
    w := IrqHandsOver(b, v, idle);
    var y, end := TxIrqMoves(b, v, idle, bytes, n);
    assert |w.u.fifo.accepted| == |s.u.fifo.accepted| + |bytes| - m + Blocking(es);
    if Blocking(es) == 0 {
      Pieces(bytes, m, n, end);
      assert bytes[m..end] == bytes[m..];
      Chained(v.u.fifo.accepted, s.u.fifo.accepted, bytes[m..n], w.u.fifo.accepted, bytes[n..end]);
    }
  }

  /** A whole transmit, `pre` being what comes before its first interrupt, `rest` what comes before its
    * last: the buffer goes out in one piece, behind what was handed over before, if and only if no
    * byte of a blocking transmit was written from the first interrupt on. */
  lemma BufferInOnePiece(b: Board, s: Sys, pre: seq<Event>, rest: seq<Event>, idle: nat, bytes: seq<Byte>)
    returns (first: Sys, last: Sys, w: Sys)
    requires TxAt(b, s, bytes, 0) && Roomy(s) && TxIrqs(pre) == 0
    requires PossibleRun(b, s, pre) && CoveredRun(b, s, pre)
    requires PossibleRun(b, Run(b, s, pre), rest) && CoveredRun(b, Run(b, s, pre), rest)
    requires Shares(b, TxIrqs(rest)) < |bytes| <= Shares(b, TxIrqs(rest)) + Share(b)
    requires Possible(b, Run(b, Run(b, s, pre), rest), TxIrq(idle))
    requires Covered(b, Run(b, Run(b, s, pre), rest), TxIrq(idle))
    ensures first == Run(b, s, pre) && last == Run(b, first, rest) && w == Take(b, last, TxIrq(idle))
    ensures w.u.gState == STATE_READY && TxLine(b) !in w.u.mie && w.u.fifo.lost == s.u.fifo.lost
    ensures w.u.fifo.accepted == s.u.fifo.accepted + Outs(b, s, pre) + bytes <==> Blocking(rest) == 0
  {
    first := RunHandsOver(b, s, pre);
    var x, n := TxDelivers(b, s, pre, bytes, 0);
    last, w := RestInOnePiece(b, first, rest, idle, bytes, 0);
    assert bytes[0..] == bytes;
  }

  /** With m bytes out, the main program sends one byte by a blocking transmit, and the FIFO is polled
    * empty: that byte goes out between them and the rest. */
  lemma SplitExample(b: Board, s: Sys, bytes: seq<Byte>, m: nat, ptr: nat) returns (w: Sys)
    requires forall t :: b.line.takes(t) == 15 && b.line.reports(t) == 15
    requires TxAt(b, s, bytes, m) && m > 0 && s.call.left == 0 && ptr < |s.u.mem|
    ensures var es := [Begin(ptr, 1)] + ([Poll] + ([Write] + []));
      PossibleRun(b, s, es) && w == Run(b, s, es)
    ensures TxAt(b, w, bytes, m) && w.u.fifo.accepted == s.u.fifo.accepted + [s.u.mem[ptr]]
  {
    var x := RunFirst(b, s, Begin(ptr, 1), [Poll] + ([Write] + []));
    x := OthersLeaveTx(b, s, Begin(ptr, 1), bytes, m);
    var y := RunFirst(b, x, Poll, [Write] + []);
    y := OthersLeaveTx(b, x, Poll, bytes, m);
    assert y.call == Call(ptr, 1, 15) && y.u.fifo.room == 15;
    w := RunFirst(b, y, Write, []);
    w := OthersLeaveTx(b, y, Write, bytes, m);
  }

  /** An accepted call puts a transmit of its whole buffer under way. */
  lemma TransmitStarts(b: Board, s: Sys, ptr: nat, size: U16) returns (v: Sys)
    requires Good(b, s) && Possible(b, s, TransmitIT(ptr, size)) && s.u.gState == STATE_READY && Total(b, size) > 0
    ensures v == Take(b, s, TransmitIT(ptr, size)) && v.u.fifo == s.u.fifo && v.call == s.call
    ensures TxAt(b, v, s.u.mem[ptr..ptr + Total(b, size)], 0)
  {
    TakeKeepsGood(b, s, TransmitIT(ptr, size));
    v := Take(b, s, TransmitIT(ptr, size));
  }

  // ---- Receive ----

  /** A receive of `total` bytes to ptr, begun after `from` were read, is under way, m stored. */
  predicate RxAt(b: Board, s: Sys, from: nat, ptr: nat, total: nat, m: nat) {
    var u := s.u;
    && Good(b, s) && RxLine(b) in u.mie && m < total && ptr + total <= |u.mem|
    && u.rx.ptr == ptr + m && RxLeft(b, u) == total - m && Total(b, u.rx.size) == total
    && u.taken == from + m && u.mem[ptr..ptr + m] == Input(b.input, from, m)
  }

  /** Nothing but a receive interrupt moves a receive. */
  lemma OthersLeaveRx(b: Board, s: Sys, e: Event, from: nat, ptr: nat, total: nat, m: nat) returns (v: Sys)
    requires RxAt(b, s, from, ptr, total, m) && Possible(b, s, e) && !e.RxIrq?
    ensures v == Take(b, s, e) && RxAt(b, v, from, ptr, total, m)
  {
    TakeKeepsGood(b, s, e);
    v := Take(b, s, e);
    assert v.u.mem[ptr..ptr + m] == s.u.mem[ptr..ptr + m];
  }

  lemma RxStores(b: Board, u: Uart, n: nat) returns (v: Uart)
    requires GoodUart(b, u) && RxLine(b) in u.mie && 0 < n == Least(Share(b), RxLeft(b, u))
    ensures v == RxHandler(b, u)
    ensures v.mem == Overwrite(u.mem, u.rx.ptr, Input(b.input, u.taken, n)) && v.taken == u.taken + n
    ensures v.rx.ptr == u.rx.ptr + n && v.rx.size == u.rx.size && v.tx == u.tx && v.fifo == u.fifo
    ensures n < RxLeft(b, u) ==> RxLine(b) in v.mie && RxLeft(b, v) == RxLeft(b, u) - n
    ensures n == RxLeft(b, u) ==>
      RxLine(b) !in v.mie && v.rxState == if Fast(b) then STATE_BUSY_RX else STATE_READY
  {
    v := RxHandler(b, u);
  }

  /** One receive interrupt stores its share. The last one masks the interrupt; the chunk form becomes
    * ready, the byte form does not. */
  lemma RxIrqMoves(b: Board, s: Sys, from: nat, ptr: nat, total: nat, m: nat) returns (v: Sys, n: nat)
    requires RxAt(b, s, from, ptr, total, m)
    ensures v == Take(b, s, RxIrq) && n == Least(m + Share(b), total)
    ensures v.u.mem[ptr..ptr + n] == Input(b.input, from, n) && v.u.taken == from + n
    ensures n < total ==> RxAt(b, v, from, ptr, total, n)
    ensures n == total ==>
      RxLine(b) !in v.u.mie && v.u.rxState == if Fast(b) then STATE_BUSY_RX else STATE_READY
  {
    TakeKeepsGood(b, s, RxIrq);
    n := Least(m + Share(b), total);
    var w := RxStores(b, s.u, n - m);
    v := s.(u := w);
    InputStored(s.u.mem, b.input, from, ptr, m, n - m);
  }

  /** However the other events fall, t receive interrupts store the next t shares of the bytes read,
    * in order. */
  lemma {:induction false} RxDelivers(b: Board, s: Sys, es: seq<Event>, from: nat, ptr: nat, total: nat, m: nat)
    returns (v: Sys, n: nat)
    requires RxAt(b, s, from, ptr, total, m) && PossibleRun(b, s, es) && m + Shares(b, RxIrqs(es)) < total
    ensures v == Run(b, s, es) && n == m + Shares(b, RxIrqs(es)) && RxAt(b, v, from, ptr, total, n)
    decreases |es|
  {
    v, n := s, m;
    if es != [] {
      if es[0].RxIrq? {
        v, n := RxIrqMoves(b, s, from, ptr, total, m);
      } else {
        v := OthersLeaveRx(b, s, es[0], from, ptr, total, m);
      }
      v, n := RxDelivers(b, v, es[1..], from, ptr, total, n);
    }
  }

  /** An accepted call puts a receive of its whole buffer under way. */
  lemma ReceiveStarts(b: Board, s: Sys, ptr: nat, size: U16) returns (v: Sys)
    requires Good(b, s) && Possible(b, s, ReceiveIT(ptr, size)) && s.u.rxState == STATE_READY && Total(b, size) > 0
    ensures v == Take(b, s, ReceiveIT(ptr, size))
    ensures RxAt(b, v, s.u.taken, ptr, Total(b, size), 0)
  {
    TakeKeepsGood(b, s, ReceiveIT(ptr, size));
    v := Take(b, s, ReceiveIT(ptr, size));
  }

  /** A cell that the program does not store to keeps its value in every event but the receive
    * interrupt that has a byte for it. */
  lemma OnlyReceivesStore(b: Board, s: Sys, e: Event, cell: nat)
    requires Good(b, s) && Possible(b, s, e) && cell < |s.u.mem| && !(e.Poke? && e.ptr == cell)
    requires e.RxIrq? ==> !(s.u.rx.ptr <= cell < s.u.rx.ptr + Least(Share(b), RxLeft(b, s.u)))
    ensures Take(b, s, e).u.mem[cell] == s.u.mem[cell]
  {
  }
}
