/** The UART driver with hardware FIFOs (uart/core/src/uart.c): three forms of one transmit, and
  * interrupt receive. */
module UartFifo {
  import opened Memory

  /** Room for 15 bytes; half of it (8) raises the half-empty and half-full interrupts. */
  const CAPACITY := 15
  const HALF_FIFO_LEN := 8
  const IT_FIFO_THRESHOLD := 115200

  // Interrupt lines, as bit numbers of mie.
  const RX_HALF_FULL := 18
  const TX_HALF_EMPTY := 19
  const RX_NOT_EMPTY := 20
  const TX_NOT_FULL := 21

  // ---- The transmit FIFO ----

  /** The world outside, by access: how many bytes the line takes out of the FIFO before access
    * t, and what free space is reported then (never more than there is). */
  datatype Line = Line(takes: nat -> nat, reports: nat -> nat)

  /** The bytes accepted so far, in order; the free space, so that all but the last
    * CAPACITY - room of those have gone out on the line; and how many bytes were lost because
    * the FIFO was full. */
  type Space = x: int | 0 <= x <= CAPACITY
  datatype Fifo = Fifo(clock: nat, accepted: seq<Byte>, room: Space, lost: nat)

  function Least(a: nat, b: nat): nat {
    if a < b then a else b
  }

  /** The line takes up to n bytes. */
  function Drain(f: Fifo, n: nat): Fifo {
    f.(room := Least(f.room + n, CAPACITY))
  }

  /** Time passes until the next access. */
  function Tick(l: Line, f: Fifo): Fifo {
    Drain(f, l.takes(f.clock)).(clock := f.clock + 1)
  }

  /** A write to TX_DATA. */
  function Put(l: Line, f: Fifo, byte: Byte): Fifo {
    var g := Tick(l, f);
    if g.room > 0 then g.(accepted := g.accepted + [byte], room := g.room - 1) else g.(lost := g.lost + 1)
  }

  // What is in the queue, and what has gone out.

  /** No more is waiting than was accepted. */
  predicate Consistent(f: Fifo) {
    CAPACITY - f.room <= |f.accepted|
  }

  function Drained(f: Fifo): seq<Byte>
    requires Consistent(f)
  {
    f.accepted[..|f.accepted| - (CAPACITY - f.room)]
  }

  function Queued(f: Fifo): (queue: seq<Byte>)
    requires Consistent(f)
    ensures |queue| == CAPACITY - f.room <= CAPACITY
    ensures Drained(f) + queue == f.accepted
  {
    f.accepted[|f.accepted| - (CAPACITY - f.room)..]
  }

  /** The line takes bytes from the front of the queue. */
  lemma DrainMoves(f: Fifo, n: nat)
    requires Consistent(f)
    ensures var g, k := Drain(f, n), Least(n, |Queued(f)|);
      && Consistent(g)
      && Drained(g) == Drained(f) + Queued(f)[..k] && Queued(g) == Queued(f)[k..]
  {
  }

  /** A write joins the back of the queue, or is lost if that is full. */
  lemma PutMoves(l: Line, f: Fifo, byte: Byte)
    requires Consistent(Tick(l, f))
    ensures var g, h := Tick(l, f), Put(l, f, byte);
      && Consistent(h) && Drained(h) == Drained(g)
      && Queued(h) == (if |Queued(g)| < CAPACITY then Queued(g) + [byte] else Queued(g))
      && h.lost == (if |Queued(g)| < CAPACITY then g.lost else g.lost + 1)
  {
  }

  /** `m` writes, from mem[ptr] on. */
  function PutRange(l: Line, f: Fifo, mem: seq<Byte>, ptr: nat, m: nat): Fifo
    requires ptr + m <= |mem|
    decreases m
  {
    if m == 0 then f else Put(l, PutRange(l, f, mem, ptr, m - 1), mem[ptr + m - 1])
  }

  /** The free space read from the FIFO register. */
  function Reported(l: Line, f: Fifo): nat {
    Least(l.reports(f.clock), Tick(l, f).room)
  }

  lemma PutFits(l: Line, f: Fifo, byte: Byte)
    requires f.room > 0
    ensures var g := Put(l, f, byte);
      g.accepted == f.accepted + [byte] && g.lost == f.lost && g.room >= f.room - 1
  {
  }

  /** Writing no more than there is room for loses nothing, however the line moves meanwhile. */
  lemma {:induction false} PutRangeFits(l: Line, f: Fifo, mem: seq<Byte>, ptr: nat, m: nat)
    requires ptr + m <= |mem| && m <= f.room
    ensures var g := PutRange(l, f, mem, ptr, m);
      g.accepted == f.accepted + mem[ptr..ptr + m] && g.lost == f.lost && g.room >= f.room - m
    decreases m
  {
    if m > 0 {
      PutRangeFits(l, f, mem, ptr, m - 1);
      PutFits(l, PutRange(l, f, mem, ptr, m - 1), mem[ptr + m - 1]);
      assert mem[ptr..ptr + m] == mem[ptr..ptr + m - 1] + [mem[ptr + m - 1]];
    }
  }

  // ---- The blocking form ----

  /** What one turn of the outer loop writes. */
  function Chunk(l: Line, f: Fifo, size: nat): (m: nat)
    ensures m <= size
  {
    Least(Reported(l, f), size)
  }

  function Turn(l: Line, f: Fifo, mem: seq<Byte>, ptr: nat, size: nat): Fifo
    requires ptr + size <= |mem|
  {
    PutRange(l, Tick(l, f), mem, ptr, Chunk(l, f, size))
  }

  datatype Progress = Progress(fifo: Fifo, left: nat)

  /** `n` turns of the outer loop over mem[ptr..ptr + size]; also, how many bytes are left. */
  function Turns(l: Line, f: Fifo, mem: seq<Byte>, ptr: nat, size: nat, n: nat): (p: Progress)
    requires ptr + size <= |mem|
    ensures p.left <= size
    decreases n
  {
    if n == 0 || size == 0 then Progress(f, size)
    else Turns(l, Turn(l, f, mem, ptr, size), mem, ptr + Chunk(l, f, size), size - Chunk(l, f, size), n - 1)
  }

  /** The line makes room for the whole buffer within `n` polls, and leaves `end`. */
  predicate Ends(l: Line, f: Fifo, mem: seq<Byte>, ptr: nat, size: nat, n: nat, end: Fifo)
    requires ptr + size <= |mem|
    decreases n
  {
    if size == 0 then f == end
    else
      && n > 0
      && Ends(l, Turn(l, f, mem, ptr, size), mem, ptr + Chunk(l, f, size), size - Chunk(l, f, size), n - 1, end)
  }

  lemma EndsNext(l: Line, f: Fifo, mem: seq<Byte>, ptr: nat, size: nat, n: nat, end: Fifo, m: nat, g: Fifo)
    requires ptr + size <= |mem| && size > 0 && Ends(l, f, mem, ptr, size, n, end)
    requires m == Chunk(l, f, size) && g == Turn(l, f, mem, ptr, size)
    ensures n > 0 && Ends(l, g, mem, ptr + m, size - m, n - 1, end)
  {
  }

  lemma {:induction false} EndsAfterTurns(l: Line, f: Fifo, mem: seq<Byte>, ptr: nat, size: nat, n: nat, end: Fifo)
    requires ptr + size <= |mem|
    ensures Ends(l, f, mem, ptr, size, n, end) <==> Turns(l, f, mem, ptr, size, n) == Progress(end, 0)
    decreases n
  {
    if size > 0 && n > 0 {
      var m := Chunk(l, f, size);
      EndsAfterTurns(l, Turn(l, f, mem, ptr, size), mem, ptr + m, size - m, n - 1, end);
    }
  }

  lemma TurnFits(l: Line, f: Fifo, mem: seq<Byte>, ptr: nat, size: nat)
    requires ptr + size <= |mem|
    ensures var g := Turn(l, f, mem, ptr, size);
      g.accepted == f.accepted + mem[ptr..ptr + Chunk(l, f, size)] && g.lost == f.lost
  {
    PutRangeFits(l, Tick(l, f), mem, ptr, Chunk(l, f, size));
  }

  lemma Next(mem: seq<Byte>, s: seq<Byte>, ptr: nat, m: nat, n: nat)
    requires ptr + m + n <= |mem|
    ensures s + mem[ptr..ptr + m] + mem[ptr + m..ptr + m + n] == s + mem[ptr..ptr + m + n]
  {
  }

  lemma {:induction false} BlockingLosesNone(l: Line, f: Fifo, mem: seq<Byte>, ptr: nat, size: nat, n: nat)
    requires ptr + size <= |mem|
    ensures Turns(l, f, mem, ptr, size, n).fifo.lost == f.lost
    decreases n
  {
    if n > 0 && size > 0 {
      var m, g := Chunk(l, f, size), Turn(l, f, mem, ptr, size);
      TurnFits(l, f, mem, ptr, size);
      BlockingLosesNone(l, g, mem, ptr + m, size - m, n - 1);
    }
  }

  lemma TurnThen(l: Line, f: Fifo, mem: seq<Byte>, ptr: nat, size: nat, m: nat, g: Fifo, p: Progress)
    requires ptr + size <= |mem| && m == Chunk(l, f, size) && g == Turn(l, f, mem, ptr, size)
    requires p.left <= size - m && p.fifo.accepted == g.accepted + mem[ptr + m..ptr + size - p.left]
    ensures p.fifo.accepted == f.accepted + mem[ptr..ptr + size - p.left]
  {
    TurnFits(l, f, mem, ptr, size);
    Next(mem, f.accepted, ptr, m, size - p.left - m);
  }

  lemma {:induction false} BlockingStream(l: Line, f: Fifo, mem: seq<Byte>, ptr: nat, size: nat, n: nat)
    returns (p: Progress)
    requires ptr + size <= |mem|
    ensures p == Turns(l, f, mem, ptr, size, n)
    ensures p.fifo.accepted == f.accepted + mem[ptr..ptr + size - p.left]
    decreases n
  {
    if n == 0 || size == 0 {
      p := Progress(f, size);
      assert mem[ptr..ptr] == [];
    } else {
      var m, g := Chunk(l, f, size), Turn(l, f, mem, ptr, size);
      p := BlockingStream(l, g, mem, ptr + m, size - m, n - 1);
      TurnThen(l, f, mem, ptr, size, m, g, p);
    }
  }

  /** What the blocking form has done when it returns. */
  lemma BlockingDelivers(l: Line, f: Fifo, mem: seq<Byte>, ptr: nat, size: nat, n: nat, end: Fifo)
    requires ptr + size <= |mem| && Ends(l, f, mem, ptr, size, n, end)
    ensures end.accepted == f.accepted + mem[ptr..ptr + size] && end.lost == f.lost
  {
    EndsAfterTurns(l, f, mem, ptr, size, n, end);
    BlockingLosesNone(l, f, mem, ptr, size, n);
    var _ := BlockingStream(l, f, mem, ptr, size, n);
  }

  lemma {:induction false} PutRangeConsistent(l: Line, f: Fifo, mem: seq<Byte>, ptr: nat, m: nat)
    requires ptr + m <= |mem| && Consistent(f)
    ensures Consistent(PutRange(l, f, mem, ptr, m))
    decreases m
  {
    if m > 0 {
      PutRangeConsistent(l, f, mem, ptr, m - 1);
    }
  }

  lemma {:induction false} TurnsConsistent(l: Line, f: Fifo, mem: seq<Byte>, ptr: nat, size: nat, n: nat)
    requires ptr + size <= |mem| && Consistent(f)
    ensures Consistent(Turns(l, f, mem, ptr, size, n).fifo)
    decreases n
  {
    if n > 0 && size > 0 {
      var m, g := Chunk(l, f, size), Turn(l, f, mem, ptr, size);
      PutRangeConsistent(l, Tick(l, f), mem, ptr, m);
      TurnsConsistent(l, g, mem, ptr + m, size - m, n - 1);
    }
  }

  /** However the line drains and whatever it reports: no byte is lost, the FIFO never overflows,
    * and what has gone out plus what is queued is exactly what had before, plus what was taken
    * from the buffer. */
  lemma BlockingConserves(l: Line, f: Fifo, mem: seq<Byte>, ptr: nat, size: nat, n: nat)
    requires ptr + size <= |mem| && Consistent(f)
    ensures var p := Turns(l, f, mem, ptr, size, n);
      && Consistent(p.fifo)
      && Drained(p.fifo) + Queued(p.fifo) == Drained(f) + Queued(f) + mem[ptr..ptr + size - p.left]
      && |Queued(p.fifo)| <= CAPACITY
      && p.fifo.lost == f.lost
  {
    BlockingLosesNone(l, f, mem, ptr, size, n);
    var _ := BlockingStream(l, f, mem, ptr, size, n);
    TurnsConsistent(l, f, mem, ptr, size, n);
  }

  // ---- The interrupt forms ----

  datatype State = STATE_RESET | STATE_READY | STATE_BUSY_TX | STATE_BUSY_RX
  datatype Xfer = Xfer(ptr: nat, size: U16, count: U16)

  /** `taken`: bytes read from RX_DATA so far. */
  datatype Uart = Uart(
    gState: State, rxState: State, tx: Xfer, rx: Xfer, mie: set<nat>,
    fifo: Fifo, taken: nat, mem: seq<Byte>)

  function StartTransmit(u: Uart, baud: nat, ptr: nat, size: U16): Uart {
    if u.gState != STATE_READY then u
    else u.(tx := Xfer(ptr, size, size), gState := STATE_BUSY_TX,
            mie := u.mie + {if baud > IT_FIFO_THRESHOLD then TX_NOT_FULL else TX_HALF_EMPTY})
  }

  function StartReceive(u: Uart, baud: nat, ptr: nat, size: U16): Uart {
    if u.rxState != STATE_READY then u
    else u.(rx := Xfer(ptr, size, size), rxState := STATE_BUSY_RX,
            mie := u.mie + {if baud > IT_FIFO_THRESHOLD then RX_NOT_EMPTY else RX_HALF_FULL})
  }

  predicate ChunkInside(u: Uart) {
    u.gState == STATE_BUSY_TX ==> u.tx.ptr + Least(u.tx.count, 8) <= |u.mem|
  }

  /** Up to eight bytes to the FIFO. */
  function HalfEmpty(l: Line, u: Uart): Uart
    requires ChunkInside(u)
  {
    if u.gState != STATE_BUSY_TX then u
    else
      var n := Least(u.tx.count, 8);
      var done := n > 0 && u.tx.count == n;
      u.(fifo := PutRange(l, u.fifo, u.mem, u.tx.ptr, n),
         tx := Xfer(u.tx.ptr + n, u.tx.size, u.tx.count - n),
         mie := if done then u.mie - {TX_HALF_EMPTY} else u.mie,
         gState := if done then STATE_READY else STATE_BUSY_TX)
  }

  predicate ByteInside(u: Uart) {
    u.gState == STATE_BUSY_TX ==> u.tx.ptr < |u.mem|
  }

  /** One byte to the FIFO. */
  function NotFull(l: Line, u: Uart): Uart
    requires ByteInside(u)
  {
    if u.gState != STATE_BUSY_TX then u
    else
      var count := Decrement(u.tx.count);
      u.(fifo := Put(l, u.fifo, u.mem[u.tx.ptr]),
         tx := Xfer(u.tx.ptr + 1, u.tx.size, count),
         mie := if count == 0 then u.mie - {TX_NOT_FULL} else u.mie,
         gState := if count == 0 then STATE_READY else STATE_BUSY_TX)
  }

  /** Up to eight bytes from the FIFO; `input(i)` is the i-th byte read from RX_DATA. */
  function HalfFull(input: nat -> Byte, u: Uart): Uart
    requires u.rxState == STATE_BUSY_RX ==> u.rx.ptr + Least(u.rx.count, 8) <= |u.mem|
  {
    if u.rxState != STATE_BUSY_RX then u
    else
      var n := Least(u.rx.count, 8);
      var done := n > 0 && u.rx.count == n;
      u.(mem := Overwrite(u.mem, u.rx.ptr, Input(input, u.taken, n)),
         taken := u.taken + n,
         rx := Xfer(u.rx.ptr + n, u.rx.size, u.rx.count - n),
         mie := if done then u.mie - {RX_HALF_FULL} else u.mie,
         rxState := if done then STATE_READY else STATE_BUSY_RX)
  }

  /** One byte from the FIFO. The source compares RxState with READY where it means to assign, so
    * the last byte masks the interrupt and leaves the state busy. */
  function NotEmpty(input: nat -> Byte, u: Uart): Uart
    requires u.rxState == STATE_BUSY_RX ==> u.rx.ptr < |u.mem|
  {
    if u.rxState != STATE_BUSY_RX then u
    else
      var count := Decrement(u.rx.count);
      u.(mem := Overwrite(u.mem, u.rx.ptr, Input(input, u.taken, 1)),
         taken := u.taken + 1,
         rx := Xfer(u.rx.ptr + 1, u.rx.size, count),
         mie := if count == 0 then u.mie - {RX_NOT_EMPTY} else u.mie)
  }

  // ---- Whole transmits ----

  /** Interrupts, each after the line has taken `idle[i]` more bytes. */
  function Idle(u: Uart, n: nat): Uart {
    u.(fifo := Drain(u.fifo, n))
  }

  /** A transmit from ptr begun on `start`, with `m` bytes handed over. */
  ghost predicate Handed(u: Uart, start: Uart, ptr: nat, m: nat) {
    && ptr + m <= |start.mem| && u.mem == start.mem
    && u.fifo.accepted == start.fifo.accepted + start.mem[ptr..ptr + m]
    && u.fifo.lost == start.fifo.lost
  }

  /** The pointer stays inside memory. */
  ghost predicate ChunkSafe(l: Line, u: Uart, idle: seq<nat>)
    decreases |idle|
  {
    idle != [] ==>
      var v := Idle(u, idle[0]);
      ChunkInside(v) && ChunkSafe(l, HalfEmpty(l, v), idle[1..])
  }

  ghost function ChunkRun(l: Line, u: Uart, idle: seq<nat>): Uart
    requires ChunkSafe(l, u, idle)
    decreases |idle|
  {
    if idle == [] then u else ChunkRun(l, HalfEmpty(l, Idle(u, idle[0])), idle[1..])
  }

  /** The half-empty interrupt is raised with half the FIFO free. */
  ghost predicate ChunkRaised(l: Line, u: Uart, idle: seq<nat>)
    decreases |idle|
  {
    idle != [] ==>
      var v := Idle(u, idle[0]);
      v.fifo.room >= 8 && (ChunkInside(v) ==> ChunkRaised(l, HalfEmpty(l, v), idle[1..]))
  }

  /** In the middle of, or after, a chunked transmit of size bytes, m of them handed over. */
  ghost predicate ChunkAt(u: Uart, start: Uart, ptr: nat, size: U16, m: nat) {
    Counted(u, ptr, size, m) && Handed(u, start, ptr, m)
  }

  predicate Counted(u: Uart, ptr: nat, size: U16, m: nat) {
    && m <= size && u.tx == Xfer(ptr + m, size, size - m)
    && (u.gState == if m == size && size > 0 then STATE_READY else STATE_BUSY_TX)
    && (TX_HALF_EMPTY in u.mie <==> u.gState == STATE_BUSY_TX)
  }

  lemma ChunkCounted(l: Line, u: Uart, ptr: nat, size: U16, m: nat)
    requires Counted(u, ptr, size, m) && ChunkInside(u)
    ensures Counted(HalfEmpty(l, u), ptr, size, Least(m + 8, size))
  {
  }

  lemma ChunkHanded(l: Line, f: Fifo, was: seq<Byte>, mem: seq<Byte>, ptr: nat, m: nat, to: nat)
    requires m <= to <= m + f.room && ptr + to <= |mem| && f.accepted == was + mem[ptr..ptr + m]
    ensures var g := PutRange(l, f, mem, ptr + m, to - m);
      g.accepted == was + mem[ptr..ptr + to] && g.lost == f.lost
  {
    PutRangeFits(l, f, mem, ptr + m, to - m);
    Next(mem, was, ptr, m, to - m);
  }

  lemma ChunkMoved(l: Line, u: Uart, n: nat)
    requires u.gState == STATE_BUSY_TX && n == Least(u.tx.count, 8) && u.tx.ptr + n <= |u.mem|
    ensures HalfEmpty(l, u).fifo == PutRange(l, u.fifo, u.mem, u.tx.ptr, n) && HalfEmpty(l, u).mem == u.mem
  {
  }

  lemma HandedBy(l: Line, u: Uart, v: Uart, start: Uart, ptr: nat, m: nat, to: nat)
    requires Handed(u, start, ptr, m) && m <= to <= m + u.fifo.room && ptr + to <= |start.mem|
    requires v.mem == u.mem && v.fifo == PutRange(l, u.fifo, u.mem, ptr + m, to - m)
    ensures Handed(v, start, ptr, to)
  {
    ChunkHanded(l, u.fifo, start.fifo.accepted, start.mem, ptr, m, to);
  }

  lemma ChunkStepHanded(l: Line, u: Uart, start: Uart, ptr: nat, m: nat, n: nat) returns (v: Uart)
    requires Handed(u, start, ptr, m) && u.gState == STATE_BUSY_TX && u.tx.ptr == ptr + m
    requires n == Least(u.tx.count, 8) <= u.fifo.room && ptr + m + n <= |start.mem|
    ensures ChunkInside(u) && v == HalfEmpty(l, u) && Handed(v, start, ptr, m + n)
  {
    ChunkMoved(l, u, n);
    v := HalfEmpty(l, u);
    HandedBy(l, u, v, start, ptr, m, m + n);
  }

  lemma ChunkStep(l: Line, u: Uart, start: Uart, ptr: nat, size: U16, m: nat) returns (v: Uart, to: nat)
    requires ChunkAt(u, start, ptr, size, m) && u.fifo.room >= 8 && ptr + size <= |start.mem|
    ensures ChunkInside(u) && v == HalfEmpty(l, u) && to == Least(m + 8, size)
    ensures ChunkAt(v, start, ptr, size, to)
  {
    if u.gState == STATE_BUSY_TX {
      var n := Least(u.tx.count, 8);
      to := m + n;
      v := ChunkStepHanded(l, u, start, ptr, m, n);
      ChunkCounted(l, u, ptr, size, m);
    } else {
      v, to := u, m;
    }
  }

  lemma LeastOf(m: nat, size: nat, i: nat)
    requires i > 0 && m <= size
    ensures Least(Least(m + 8, size) + 8 * (i - 1), size) == Least(m + 8 * i, size)
  {
  }

  lemma ChunkRunNext(l: Line, u: Uart, start: Uart, ptr: nat, size: U16, m: nat, idle: seq<nat>)
    returns (w: Uart)
    requires ChunkAt(u, start, ptr, size, m) && ptr + size <= |start.mem| && ChunkRaised(l, u, idle)
    requires idle != []
    ensures ChunkAt(w, start, ptr, size, Least(m + 8, size)) && ChunkRaised(l, w, idle[1..])
    ensures ChunkSafe(l, w, idle[1..]) ==> ChunkSafe(l, u, idle) && ChunkRun(l, u, idle) == ChunkRun(l, w, idle[1..])
  {
    var v := Idle(u, idle[0]);
    assert v.fifo.room >= 8;
    var next, _ := ChunkStep(l, v, start, ptr, size, m);
    w := next;
  }

  lemma {:induction false} ChunkRunFrom(
    l: Line, u: Uart, start: Uart, ptr: nat, size: U16, m: nat, idle: seq<nat>) returns (end: Uart, out: nat)
    requires ChunkAt(u, start, ptr, size, m) && ptr + size <= |start.mem| && ChunkRaised(l, u, idle)
    ensures ChunkSafe(l, u, idle) && end == ChunkRun(l, u, idle) && out == Least(m + 8 * |idle|, size)
    ensures ChunkAt(end, start, ptr, size, out)
    decreases |idle|
  {
    if idle == [] {
      end, out := u, m;
    } else {
      var w := ChunkRunNext(l, u, start, ptr, size, m, idle);
      end, out := ChunkRunFrom(l, w, start, ptr, size, Least(m + 8, size), idle[1..]);
      LeastOf(m, size, |idle|);
    }
  }

  /** The chunked form: after i interrupts exactly the first min(8 i, Size) bytes are out, in
    * order, none lost; it is ready again and its interrupt masked once 8 i reaches Size, so
    * after ceil(Size / 8) interrupts and not before. A transmit of no bytes never ends. */
  lemma ChunkedTransmit(l: Line, start: Uart, baud: nat, ptr: nat, size: U16, idle: seq<nat>)
    requires start.gState == STATE_READY && baud <= IT_FIFO_THRESHOLD && ptr + size <= |start.mem|
    requires ChunkRaised(l, StartTransmit(start, baud, ptr, size), idle)
    ensures ChunkSafe(l, StartTransmit(start, baud, ptr, size), idle)
    ensures var u, i := ChunkRun(l, StartTransmit(start, baud, ptr, size), idle), |idle|;
      && Handed(u, start, ptr, Least(8 * i, size))
      && (u.gState == STATE_READY <==> size != 0 && 8 * i >= size)
      && (TX_HALF_EMPTY in u.mie <==> u.gState != STATE_READY)
  {
    var u := StartTransmit(start, baud, ptr, size);
    assert start.mem[ptr..ptr + 0] == [];
    var _, _ := ChunkRunFrom(l, u, start, ptr, size, 0, idle);
  }

  ghost predicate ByteSafe(l: Line, u: Uart, idle: seq<nat>)
    decreases |idle|
  {
    idle != [] ==>
      var v := Idle(u, idle[0]);
      ByteInside(v) && ByteSafe(l, NotFull(l, v), idle[1..])
  }

  ghost function ByteRun(l: Line, u: Uart, idle: seq<nat>): Uart
    requires ByteSafe(l, u, idle)
    decreases |idle|
  {
    if idle == [] then u else ByteRun(l, NotFull(l, Idle(u, idle[0])), idle[1..])
  }

  /** The not-full interrupt is raised with room for a byte. */
  ghost predicate ByteRaised(l: Line, u: Uart, idle: seq<nat>)
    decreases |idle|
  {
    idle != [] ==>
      var v := Idle(u, idle[0]);
      v.fifo.room > 0 && (ByteInside(v) ==> ByteRaised(l, NotFull(l, v), idle[1..]))
  }

  ghost predicate ByteAt(u: Uart, start: Uart, ptr: nat, size: U16, m: nat) {
    && m <= Rounds(size) && Handed(u, start, ptr, m)
    && u.tx == Xfer(ptr + m, size, if m == 0 then size else Rounds(size) - m)
    && (u.gState == if m == Rounds(size) then STATE_READY else STATE_BUSY_TX)
    && (TX_NOT_FULL in u.mie <==> u.gState == STATE_BUSY_TX)
  }

  lemma ByteStep(l: Line, u: Uart, start: Uart, ptr: nat, size: U16, m: nat)
    requires ByteAt(u, start, ptr, size, m) && u.fifo.room > 0 && ptr + Rounds(size) <= |start.mem|
    ensures ByteInside(u) && ByteAt(NotFull(l, u), start, ptr, size, Least(m + 1, Rounds(size)))
  {
    if m < Rounds(size) {
      PutFits(l, u.fifo, u.mem[u.tx.ptr]);
      Next(start.mem, start.fifo.accepted, ptr, m, 1);
    }
  }

  lemma {:induction false} ByteRunFrom(
    l: Line, u: Uart, start: Uart, ptr: nat, size: U16, m: nat, idle: seq<nat>)
    requires ByteAt(u, start, ptr, size, m) && ptr + Rounds(size) <= |start.mem| && ByteRaised(l, u, idle)
    ensures ByteSafe(l, u, idle)
    ensures ByteAt(ByteRun(l, u, idle), start, ptr, size, Least(m + |idle|, Rounds(size)))
    decreases |idle|
  {
    if idle != [] {
      var v := Idle(u, idle[0]);
      ByteStep(l, v, start, ptr, size, m);
      ByteRunFrom(l, NotFull(l, v), start, ptr, size, Least(m + 1, Rounds(size)), idle[1..]);
    }
  }

  /** The byte-per-interrupt form: i interrupts hand over the first min(i, Size) bytes; ready and
    * masked from Size on. Size 0 wraps and stands for 65536. */
  lemma ByteTransmit(l: Line, start: Uart, baud: nat, ptr: nat, size: U16, idle: seq<nat>)
    requires start.gState == STATE_READY && baud > IT_FIFO_THRESHOLD && ptr + Rounds(size) <= |start.mem|
    requires ByteRaised(l, StartTransmit(start, baud, ptr, size), idle)
    ensures ByteSafe(l, StartTransmit(start, baud, ptr, size), idle)
    ensures var u, i := ByteRun(l, StartTransmit(start, baud, ptr, size), idle), |idle|;
      && Handed(u, start, ptr, Least(i, Rounds(size)))
      && (u.gState == STATE_READY <==> i >= Rounds(size))
      && (TX_NOT_FULL in u.mie <==> u.gState != STATE_READY)
  {
    var u := StartTransmit(start, baud, ptr, size);
    assert start.mem[ptr..ptr + 0] == [];
    ByteRunFrom(l, u, start, ptr, size, 0, idle);
  }

  /** The three forms on any lines, once they are done: the same bytes go out, exactly when Size
    * is not 0 (then the chunked form does end). */
  lemma FormsAgree(
    start: Uart, ptr: nat, size: U16, l0: Line, turns: nat, l1: Line, idle1: seq<nat>, l2: Line, idle2: seq<nat>)
    requires start.gState == STATE_READY && ptr + Rounds(size) <= |start.mem|
    requires Turns(l0, start.fifo, start.mem, ptr, size, turns).left == 0
    requires ByteRaised(l1, StartTransmit(start, IT_FIFO_THRESHOLD + 1, ptr, size), idle1)
    requires |idle1| >= Rounds(size)
    requires ChunkRaised(l2, StartTransmit(start, IT_FIFO_THRESHOLD, ptr, size), idle2)
    requires 8 * |idle2| >= size
    ensures ByteSafe(l1, StartTransmit(start, IT_FIFO_THRESHOLD + 1, ptr, size), idle1)
    ensures ChunkSafe(l2, StartTransmit(start, IT_FIFO_THRESHOLD, ptr, size), idle2)
    ensures var a := Turns(l0, start.fifo, start.mem, ptr, size, turns).fifo;
      var b := ByteRun(l1, StartTransmit(start, IT_FIFO_THRESHOLD + 1, ptr, size), idle1);
      var c := ChunkRun(l2, StartTransmit(start, IT_FIFO_THRESHOLD, ptr, size), idle2);
      && c.fifo.accepted == a.accepted == start.fifo.accepted + start.mem[ptr..ptr + size]
      && (b.fifo.accepted == a.accepted <==> size != 0)
      && (c.gState == STATE_READY <==> size != 0)
  {
    var _ := BlockingStream(l0, start.fifo, start.mem, ptr, size, turns);
    ByteTransmit(l1, start, IT_FIFO_THRESHOLD + 1, ptr, size, idle1);
    ChunkedTransmit(l2, start, IT_FIFO_THRESHOLD, ptr, size, idle2);
  }

  // ---- Whole receives ----

  ghost predicate Fetched(u: Uart, start: Uart, input: nat -> Byte, ptr: nat, m: nat) {
    && ptr + m <= |start.mem| && u.taken == start.taken + m
    && u.mem == Overwrite(start.mem, ptr, Input(input, start.taken, m))
  }

  function HalfFullRun(input: nat -> Byte, u: Uart, i: nat): Uart
    requires HalfFullInside(input, u, i)
    decreases i
  {
    if i == 0 then u else HalfFullRun(input, HalfFull(input, u), i - 1)
  }

  predicate HalfFullInside(input: nat -> Byte, u: Uart, i: nat)
    decreases i
  {
    i > 0 ==>
      && (u.rxState == STATE_BUSY_RX ==> u.rx.ptr + Least(u.rx.count, 8) <= |u.mem|)
      && HalfFullInside(input, HalfFull(input, u), i - 1)
  }

  ghost predicate HalfFullAt(u: Uart, start: Uart, input: nat -> Byte, ptr: nat, size: U16, m: nat) {
    && m <= size && Fetched(u, start, input, ptr, m)
    && u.rx == Xfer(ptr + m, size, size - m)
    && (u.rxState == if m == size && size > 0 then STATE_READY else STATE_BUSY_RX)
    && (RX_HALF_FULL in u.mie <==> u.rxState == STATE_BUSY_RX)
  }

  lemma OverwriteTwice(mem: seq<Byte>, input: nat -> Byte, from: nat, ptr: nat, m: nat, n: nat)
    requires ptr + m + n <= |mem|
    ensures Overwrite(Overwrite(mem, ptr, Input(input, from, m)), ptr + m, Input(input, from + m, n))
      == Overwrite(mem, ptr, Input(input, from, m + n))
  {
  }

  lemma HalfFullStep(u: Uart, start: Uart, input: nat -> Byte, ptr: nat, size: U16, m: nat)
    requires HalfFullAt(u, start, input, ptr, size, m) && ptr + size <= |start.mem|
    ensures u.rxState == STATE_BUSY_RX ==> u.rx.ptr + Least(u.rx.count, 8) <= |u.mem|
    ensures HalfFullAt(HalfFull(input, u), start, input, ptr, size, Least(m + 8, size))
  {
    OverwriteTwice(start.mem, input, start.taken, ptr, m, Least(size - m, 8));
  }

  lemma {:induction false} HalfFullRunFrom(
    u: Uart, start: Uart, input: nat -> Byte, ptr: nat, size: U16, m: nat, i: nat)
    requires HalfFullAt(u, start, input, ptr, size, m) && ptr + size <= |start.mem|
    ensures HalfFullInside(input, u, i)
    ensures HalfFullAt(HalfFullRun(input, u, i), start, input, ptr, size, Least(m + 8 * i, size))
    decreases i
  {
    if i > 0 {
      HalfFullStep(u, start, input, ptr, size, m);
      HalfFullRunFrom(HalfFull(input, u), start, input, ptr, size, Least(m + 8, size), i - 1);
    }
  }

  /** The half-full receive stores the bytes read, in order, into the buffer and nowhere else:
    * the first min(8 i, Size) after i interrupts, ready and masked once 8 i reaches Size. */
  lemma HalfFullReceive(start: Uart, input: nat -> Byte, baud: nat, ptr: nat, size: U16, i: nat)
    requires start.rxState == STATE_READY && baud <= IT_FIFO_THRESHOLD && ptr + size <= |start.mem|
    ensures HalfFullInside(input, StartReceive(start, baud, ptr, size), i)
    ensures var u := HalfFullRun(input, StartReceive(start, baud, ptr, size), i);
      && Fetched(u, start, input, ptr, Least(8 * i, size))
      && (u.rxState == STATE_READY <==> size != 0 && 8 * i >= size)
      && (RX_HALF_FULL in u.mie <==> u.rxState != STATE_READY)
  {
    assert Overwrite(start.mem, ptr, Input(input, start.taken, 0)) == start.mem;
    HalfFullRunFrom(StartReceive(start, baud, ptr, size), start, input, ptr, size, 0, i);
  }

  function NotEmptyRun(input: nat -> Byte, u: Uart, i: nat): Uart
    requires u.rxState == STATE_BUSY_RX ==> u.rx.ptr + i <= |u.mem|
    decreases i
  {
    if i == 0 then u else NotEmptyRun(input, NotEmpty(input, u), i - 1)
  }

  ghost predicate NotEmptyAt(u: Uart, start: Uart, input: nat -> Byte, ptr: nat, size: U16, m: nat) {
    && m <= Rounds(size) && Fetched(u, start, input, ptr, m)
    && u.rx == Xfer(ptr + m, size, if m == 0 then size else Rounds(size) - m)
    && u.rxState == STATE_BUSY_RX
    && (RX_NOT_EMPTY in u.mie <==> m < Rounds(size))
  }

  lemma NotEmptyStep(u: Uart, start: Uart, input: nat -> Byte, ptr: nat, size: U16, m: nat)
    requires NotEmptyAt(u, start, input, ptr, size, m) && ptr + Rounds(size) <= |start.mem| && m < Rounds(size)
    ensures NotEmptyAt(NotEmpty(input, u), start, input, ptr, size, m + 1)
  {
    OverwriteTwice(start.mem, input, start.taken, ptr, m, 1);
  }

  lemma {:induction false} NotEmptyRunFrom(
    u: Uart, start: Uart, input: nat -> Byte, ptr: nat, size: U16, m: nat, i: nat)
    requires NotEmptyAt(u, start, input, ptr, size, m) && ptr + Rounds(size) <= |start.mem|
    requires m + i <= Rounds(size)
    ensures NotEmptyAt(NotEmptyRun(input, u, i), start, input, ptr, size, m + i)
    decreases i
  {
    if i > 0 {
      NotEmptyStep(u, start, input, ptr, size, m);
      NotEmptyRunFrom(NotEmpty(input, u), start, input, ptr, size, m + 1, i - 1);
    }
  }

  /** The not-empty receive fills the buffer and masks its interrupt at the last byte, but never
    * becomes ready: every later receive call is refused. */
  lemma NotEmptyReceiveNeverReady(
    start: Uart, input: nat -> Byte, baud: nat, ptr: nat, size: U16, i: nat, ptr': nat, size': U16)
    requires start.rxState == STATE_READY && baud > IT_FIFO_THRESHOLD
    requires ptr + Rounds(size) <= |start.mem| && i <= Rounds(size)
    ensures var u := NotEmptyRun(input, StartReceive(start, baud, ptr, size), i);
      && Fetched(u, start, input, ptr, i)
      && (RX_NOT_EMPTY in u.mie <==> i < Rounds(size))
      && u.rxState == STATE_BUSY_RX && StartReceive(u, baud, ptr', size') == u
  {
    assert Overwrite(start.mem, ptr, Input(input, start.taken, 0)) == start.mem;
    NotEmptyRunFrom(StartReceive(start, baud, ptr, size), start, input, ptr, size, 0, i);
  }

  // ---- Failing inputs ----

  /** A fast receive of one byte: after it the interrupt is masked, the state busy, and the same call
    * again refused. */
  lemma NeverReadyExample(start: Uart, input: nat -> Byte)
    requires start.rxState == STATE_READY && |start.mem| >= 1
    ensures var u := NotEmpty(input, StartReceive(start, 230400, 0, 1));
      && RX_NOT_EMPTY !in u.mie && u.rxState == STATE_BUSY_RX
      && StartReceive(u, 230400, 0, 1) == u
  {
  }

  /** A transmit of no bytes: in chunks every interrupt leaves everything as it is, busy and enabled;
    * byte by byte the first one sends a byte and leaves 65535. */
  lemma SizeZeroExample(l: Line, start: Uart)
    requires start.gState == STATE_READY && |start.mem| >= 1
    ensures var u := StartTransmit(start, 9600, 0, 0);
      && u.gState == STATE_BUSY_TX && TX_HALF_EMPTY in u.mie && HalfEmpty(l, u) == u
    ensures var v := NotFull(l, StartTransmit(start, 230400, 0, 0));
      && v.fifo == Put(l, start.fifo, start.mem[0]) && v.tx.count == 65535 && v.gState == STATE_BUSY_TX
  {
  }
}
