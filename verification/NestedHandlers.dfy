/** The handlers as code: what they execute, step by step of the step machine, with any tree of further
  * interrupts inside. */
module NestedHandlers {
  import opened NestedIrq

  /** One execution of a handler: the instructions of its prologue and epilogue, by where each leads;
    * those of its body, with the interrupts that come before each; and the interrupts that come
    * just before MIE is cleared. Each interrupt brings the execution of its own handler. */
  datatype Arrival = Arrival(irq: nat, script: Script)
  datatype Item = Insn(next: nat, mie: Mask, ie: bool) | Interrupt(arrival: Arrival)
  datatype Script = Script(
    vector: nat, prologue: seq<nat>, body: seq<Item>, last: seq<Arrival>, epilogue: seq<nat>)

  /** What a step does, as a reader of the program sees it. */
  datatype Deed =
    | Taken(irq: nat, vector: nat)
    | Ordinary(next: nat)
    | Csr(phase: Phase)
    | Doing(next: nat, mie: Mask, ie: bool)
    | OfMain

  function DeedOf(c: Core, s: Step): Deed
    requires Can(c, s)
  {
    match s
    case Trap(irq, vector, _) => Taken(irq, vector)
    case Advance(_) => Csr(Top(c).phase)
    case Plain(next) => Ordinary(next)
    case Work(next, mie, ie) => Doing(next, mie, ie)
    case Main(_) => OfMain
  }

  /** Steps that lead from c to e, and what they do. */
  ghost predicate Path(c: Core, steps: seq<Step>, deeds: seq<Deed>, e: Core)
    decreases |steps|
  {
    if steps == [] then c == e && deeds == []
    else
      && Can(c, steps[0]) && deeds != [] && deeds[0] == DeedOf(c, steps[0])
      && Path(Apply(c, steps[0]), steps[1..], deeds[1..], e)
  }

  lemma {:induction false} PathAdds(
    c: Core, a: seq<Step>, x: seq<Deed>, d: Core, b: seq<Step>, y: seq<Deed>, e: Core)
    requires Path(c, a, x, d) && Path(d, b, y, e)
    ensures Path(c, a + b, x + y, e)
    decreases |a|
  {
    if a == [] {
      assert a + b == b && x + y == y;
    } else {
      assert (a + b)[1..] == a[1..] + b && (x + y)[1..] == x[1..] + y;
      PathAdds(Apply(c, a[0]), a[1..], x[1..], d, b, y, e);
    }
  }

  lemma PathMore(c: Core, a: seq<Step>, x: seq<Deed>, d: Core, s: Step)
    requires Path(c, a, x, d) && Can(d, s)
    ensures Path(c, a + [s], x + [DeedOf(d, s)], Apply(d, s))
  {
    assert [s][1..] == [] && [DeedOf(d, s)][1..] == [];
    PathAdds(c, a, x, d, [s], [DeedOf(d, s)], Apply(d, s));
  }

  /** The instruction of the phase, four bytes long. */
  function Advanced(c: Core): Core
    requires c.frames != [] && !Top(c).phase.Return?
  {
    Apply(c, Advance(c.pc + 4))
  }

  /** What the two macros do. */
  const ENTRY: seq<Deed> := [Csr(SaveMepc), Csr(SaveMstatus), Csr(SaveMie), Csr(EnableIrq)]
  const EXIT: seq<Deed> := [Csr(DisableIrq), Csr(RestoreMie), Csr(RestoreMstatus), Csr(RestoreMepc)]

  lemma TwoSteps(c: Core, p: Phase, q: Phase) returns (steps: seq<Step>, e: Core)
    requires At(c, p) && !p.Return? && !q.Return? && At(Advanced(c), q)
    ensures e == Advanced(Advanced(c)) && Path(c, steps, [Csr(p), Csr(q)], e)
  {
    var d := Advanced(c);
    e := Advanced(d);
    PathMore(c, [], [], c, Advance(c.pc + 4));
    steps := [] + [Advance(c.pc + 4)];
    PathMore(c, steps, [] + [Csr(p)], d, Advance(d.pc + 4));
    steps := steps + [Advance(d.pc + 4)];
    assert [] + [Csr(p)] + [Csr(q)] == [Csr(p), Csr(q)];
  }

  lemma EntrySteps(c: Core) returns (steps: seq<Step>)
    requires At(c, SaveMepc)
    ensures Path(c, steps, ENTRY, Advanced(Advanced(Advanced(Advanced(c)))))
  {
    var d, e, more;
    steps, d := TwoSteps(c, SaveMepc, SaveMstatus);
    more, e := TwoSteps(d, SaveMie, EnableIrq);
    PathAdds(c, steps, [Csr(SaveMepc), Csr(SaveMstatus)], d, more, [Csr(SaveMie), Csr(EnableIrq)], e);
    steps := steps + more;
  }

  /** What EXIT leaves behind. */
  lemma ExitLeaves(c: Core) returns (e: Core)
    requires At(c, DisableIrq)
    ensures e == Advanced(Advanced(Advanced(Advanced(c))))
    ensures e.mepc == Top(c).mepcBak && e.mstatus == Top(c).mstatusBak && e.mie == Top(c).mieBak
    ensures e.frames == c.frames[|c.frames| - 1 := Top(c).(phase := Return)]
  {
    var d := Advanced(Advanced(c));
    assert Top(d) == Top(c).(phase := RestoreMstatus);
    e := Advanced(Advanced(d));
  }

  lemma ExitSteps(c: Core) returns (steps: seq<Step>)
    requires At(c, DisableIrq)
    ensures Path(c, steps, EXIT, Advanced(Advanced(Advanced(Advanced(c)))))
  {
    var d, e, more;
    steps, d := TwoSteps(c, DisableIrq, RestoreMie);
    more, e := TwoSteps(d, RestoreMstatus, RestoreMepc);
    PathAdds(c, steps, [Csr(DisableIrq), Csr(RestoreMie)], d, more, [Csr(RestoreMstatus), Csr(RestoreMepc)], e);
    steps := steps + more;
  }

  // ---- What a handler does ----

  function Moves(nexts: seq<nat>): (deeds: seq<Deed>)
    ensures |deeds| == |nexts|
  {
    seq(|nexts|, i requires 0 <= i < |nexts| => Ordinary(nexts[i]))
  }

  /** Which interrupts are let through. */
  datatype Gate = Gate(mie: Mask, ie: bool)

  /** After the first n items of the body, which starts with MIE set and `mie` as it was. */
  function GateAt(script: Script, n: nat, mie: Mask): Gate
    requires n <= |script.body|
    decreases n
  {
    if n == 0 then Gate(mie, true)
    else
      match script.body[n - 1]
      case Insn(_, newMie, ie) => Gate(newMie, ie)
      case Interrupt(_) => GateAt(script, n - 1, mie)
  }

  /** An interrupt is taken exactly if the gate lets it through. */
  function ArrivalDeeds(a: Arrival, g: Gate): seq<Deed>
    decreases a, 0
  {
    if g.ie && a.irq in g.mie then HandlerDeeds(a.irq, a.script, g.mie) else []
  }

  function ItemDeeds(item: Item, g: Gate): seq<Deed>
    decreases item, 0
  {
    match item
    case Insn(next, newMie, ie) => [Doing(next, newMie, ie)]
    case Interrupt(a) => ArrivalDeeds(a, g)
  }

  /** The first n items of the body. */
  function BodyDeeds(script: Script, n: nat, mie: Mask): seq<Deed>
    requires n <= |script.body|
    decreases script, 0, n
  {
    if n == 0 then []
    else BodyDeeds(script, n - 1, mie) + ItemDeeds(script.body[n - 1], GateAt(script, n - 1, mie))
  }

  /** The first n of the last interrupts. */
  function LastDeeds(script: Script, n: nat, g: Gate): seq<Deed>
    requires n <= |script.last|
    decreases script, 0, n
  {
    if n == 0 then [] else LastDeeds(script, n - 1, g) + ArrivalDeeds(script.last[n - 1], g)
  }

  /** The trap, the prologue, ENTRY, the body, EXIT, the epilogue and mret. */
  function HandlerDeeds(irq: nat, script: Script, mie: Mask): seq<Deed>
    decreases script, 1
  {
    [Taken(irq, script.vector)] + InsideDeeds(script, mie)
  }

  function InsideDeeds(script: Script, mie: Mask): seq<Deed>
    decreases script, 0, |script.body| + |script.last| + 3
  {
    EnterDeeds(script) + MiddleDeeds(script, mie) + LeaveDeeds(script)
  }

  function EnterDeeds(script: Script): seq<Deed> {
    Moves(script.prologue) + [Csr(Ack)] + ENTRY
  }

  function MiddleDeeds(script: Script, mie: Mask): seq<Deed>
    decreases script, 0, |script.body| + |script.last| + 2
  {
    BodyDeeds(script, |script.body|, mie) + EndDeeds(script, GateAt(script, |script.body|, mie))
  }

  /** The last instruction of the body, and what comes before EXIT has cleared MIE. */
  function EndDeeds(script: Script, g: Gate): seq<Deed>
    decreases script, 0, |script.last| + 1
  {
    [Csr(Body)] + LastDeeds(script, |script.last|, g)
  }

  function LeaveDeeds(script: Script): seq<Deed> {
    EXIT + Moves(script.epilogue) + [Csr(Return)]
  }

  // ---- Its own part of that ----

  function Lift(d: Deed): int {
    if d.Taken? then 1 else if d == Csr(Return) then -1 else 0
  }

  /** How many more handlers are active after `ds`. */
  function Rise(ds: seq<Deed>): int
    decreases |ds|
  {
    if ds == [] then 0 else Lift(ds[0]) + Rise(ds[1..])
  }

  /** What is done by the one handler that is active when one is, `level` being active at first. */
  function Own(ds: seq<Deed>, level: int): seq<Deed>
    decreases |ds|
  {
    if ds == [] then [] else Seen(level, [ds[0]]) + Own(ds[1..], level + Lift(ds[0]))
  }

  function Seen(level: int, ds: seq<Deed>): seq<Deed> {
    if level == 1 then ds else []
  }

  lemma {:induction false} RiseAdds(a: seq<Deed>, b: seq<Deed>)
    ensures Rise(a + b) == Rise(a) + Rise(b)
    decreases |a|
  {
    if a == [] {
      assert a + b == b;
    } else {
      assert (a + b)[1..] == a[1..] + b && (a + b)[0] == a[0];
      RiseAdds(a[1..], b);
    }
  }

  lemma OwnNext(ds: seq<Deed>, level: int, rest: seq<Deed>)
    requires ds != [] && rest == Own(ds[1..], level + Lift(ds[0]))
    ensures Own(ds, level) == Seen(level, [ds[0]]) + rest
  {
  }

  lemma {:induction false} OwnAdds(a: seq<Deed>, b: seq<Deed>, level: int) returns (x: seq<Deed>, y: seq<Deed>)
    ensures x == Own(a, level) && y == Own(b, level + Rise(a)) && Own(a + b, level) == x + y
    decreases |a|
  {
    if a == [] {
      assert a + b == b;
      x, y := [], Own(b, level);
    } else {
      assert (a + b)[1..] == a[1..] + b && (a + b)[0] == a[0];
      x, y := OwnAdds(a[1..], b, level + Lift(a[0]));
      OwnNext(a, level, x);
      OwnNext(a + b, level, x + y);
      x := Seen(level, [a[0]]) + x;
    }
  }

  lemma OneOwn(d: Deed, level: int)
    ensures Rise([d]) == Lift(d) && Own([d], level) == Seen(level, [d])
  {
    assert [d][1..] == [];
  }

  /** Two parts, the first ending at the level at which it begins. */
  lemma Joined(a: seq<Deed>, x: seq<Deed>, b: seq<Deed>, y: seq<Deed>, level: int)
    requires Rise(a) == 0 && Own(a, level) == Seen(level, x) && Own(b, level) == Seen(level, y)
    ensures Rise(a + b) == Rise(b) && Own(a + b, level) == Seen(level, x + y)
  {
    RiseAdds(a, b);
    var _, _ := OwnAdds(a, b, level);
  }

  /** Deeds of one handler at one level. */
  predicate Flat(ds: seq<Deed>) {
    forall i :: 0 <= i < |ds| ==> Lift(ds[i]) == 0
  }

  lemma {:induction false} FlatOwn(ds: seq<Deed>, level: int)
    requires Flat(ds)
    ensures Rise(ds) == 0 && Own(ds, level) == Seen(level, ds)
    decreases |ds|
  {
    if ds != [] {
      FlatOwn(ds[1..], level);
      assert ds == [ds[0]] + ds[1..];
    }
  }

  function OwnArrival(a: Arrival, g: Gate): seq<Deed> {
    if g.ie && a.irq in g.mie then [Taken(a.irq, a.script.vector)] else []
  }

  function OwnItem(item: Item, g: Gate): seq<Deed> {
    match item
    case Insn(next, newMie, ie) => [Doing(next, newMie, ie)]
    case Interrupt(a) => OwnArrival(a, g)
  }

  function OwnBody(script: Script, n: nat, mie: Mask): seq<Deed>
    requires n <= |script.body|
    decreases n
  {
    if n == 0 then []
    else OwnBody(script, n - 1, mie) + OwnItem(script.body[n - 1], GateAt(script, n - 1, mie))
  }

  function OwnLast(script: Script, n: nat, g: Gate): seq<Deed>
    requires n <= |script.last|
    decreases n
  {
    if n == 0 then [] else OwnLast(script, n - 1, g) + OwnArrival(script.last[n - 1], g)
  }

  function OwnMiddle(script: Script, mie: Mask): seq<Deed> {
    OwnBody(script, |script.body|, mie)
    + ([Csr(Body)] + OwnLast(script, |script.last|, GateAt(script, |script.body|, mie)))
  }

  lemma FlatMoves(nexts: seq<nat>)
    ensures Flat(Moves(nexts))
  {
  }

  lemma EnterOwn(script: Script, level: int)
    ensures Rise(EnterDeeds(script)) == 0
    ensures Own(EnterDeeds(script), level) == Seen(level, EnterDeeds(script))
  {
    FlatMoves(script.prologue);
    FlatOwn(EnterDeeds(script), level);
  }

  lemma LeaveOwn(script: Script, level: int)
    ensures Rise(LeaveDeeds(script)) == -1
    ensures Own(LeaveDeeds(script), level) == Seen(level, LeaveDeeds(script))
  {
    var most := EXIT + Moves(script.epilogue);
    FlatMoves(script.epilogue);
    FlatOwn(most, level);
    OneOwn(Csr(Return), level);
    Joined(most, most, [Csr(Return)], [Csr(Return)], level);
  }

  lemma {:induction false} ArrivalOwn(a: Arrival, g: Gate, level: int) returns (ds: seq<Deed>, own: seq<Deed>)
    requires level >= 1
    ensures ds == ArrivalDeeds(a, g) && own == OwnArrival(a, g)
    ensures Rise(ds) == 0 && Own(ds, level) == Seen(level, own)
    decreases a, 0
  {
    ds, own := [], [];
    if g.ie && a.irq in g.mie {
      var inside, _ := InsideOwn(a.script, g.mie, level + 1);
      own := [Taken(a.irq, a.script.vector)];
      ds := own + inside;
      OneOwn(own[0], level);
      RiseAdds(own, inside);
      var _, _ := OwnAdds(own, inside, level);
    }
  }

  lemma {:induction false} ItemOwn(item: Item, g: Gate, level: int) returns (ds: seq<Deed>, own: seq<Deed>)
    requires level >= 1
    ensures ds == ItemDeeds(item, g) && own == OwnItem(item, g)
    ensures Rise(ds) == 0 && Own(ds, level) == Seen(level, own)
    decreases item, 0
  {
    match item
    case Insn(next, newMie, ie) =>
      OneOwn(Doing(next, newMie, ie), level);
      ds := [Doing(next, newMie, ie)];
      own := ds;
    case Interrupt(a) => ds, own := ArrivalOwn(a, g, level);
  }

  lemma BodyNext(
    script: Script, n: nat, mie: Mask, ds: seq<Deed>, own: seq<Deed>, more: seq<Deed>, mine: seq<Deed>)
    requires 0 < n <= |script.body|
    requires ds == BodyDeeds(script, n - 1, mie) && own == OwnBody(script, n - 1, mie)
    requires more == ItemDeeds(script.body[n - 1], GateAt(script, n - 1, mie))
    requires mine == OwnItem(script.body[n - 1], GateAt(script, n - 1, mie))
    ensures BodyDeeds(script, n, mie) == ds + more && OwnBody(script, n, mie) == own + mine
  {
  }

  lemma {:induction false} BodyOwn(script: Script, n: nat, mie: Mask, level: int)
    returns (ds: seq<Deed>, own: seq<Deed>)
    requires n <= |script.body| && level >= 1
    ensures ds == BodyDeeds(script, n, mie) && own == OwnBody(script, n, mie)
    ensures Rise(ds) == 0 && Own(ds, level) == Seen(level, own)
    decreases script, 0, n
  {
    ds, own := [], [];
    if n > 0 {
      ds, own := BodyOwn(script, n - 1, mie, level);
      var more, mine := ItemOwn(script.body[n - 1], GateAt(script, n - 1, mie), level);
      Joined(ds, own, more, mine, level);
      BodyNext(script, n, mie, ds, own, more, mine);
      ds, own := ds + more, own + mine;
    }
  }

  lemma {:induction false} LastOwn(script: Script, n: nat, g: Gate, level: int)
    returns (ds: seq<Deed>, own: seq<Deed>)
    requires n <= |script.last| && level >= 1
    ensures ds == LastDeeds(script, n, g) && own == OwnLast(script, n, g)
    ensures Rise(ds) == 0 && Own(ds, level) == Seen(level, own)
    decreases script, 0, n
  {
    ds, own := [], [];
    if n > 0 {
      ds, own := LastOwn(script, n - 1, g, level);
      var more, mine := ArrivalOwn(script.last[n - 1], g, level);
      Joined(ds, own, more, mine, level);
      ds, own := ds + more, own + mine;
    }
  }

  lemma {:induction false} MiddleOwn(script: Script, mie: Mask, level: int) returns (ds: seq<Deed>, own: seq<Deed>)
    requires level >= 1
    ensures ds == MiddleDeeds(script, mie) && own == OwnMiddle(script, mie)
    ensures Rise(ds) == 0 && Own(ds, level) == Seen(level, own)
    decreases script, 0, |script.body| + |script.last| + 1
  {
    ds, own := BodyOwn(script, |script.body|, mie, level);
    OneOwn(Csr(Body), level);
    var more, mine := LastOwn(script, |script.last|, GateAt(script, |script.body|, mie), level);
    Joined([Csr(Body)], [Csr(Body)], more, mine, level);
    more, mine := [Csr(Body)] + more, [Csr(Body)] + mine;
    Joined(ds, own, more, mine, level);
    ds, own := ds + more, own + mine;
  }

  lemma {:induction false} InsideOwn(script: Script, mie: Mask, level: int) returns (ds: seq<Deed>, own: seq<Deed>)
    requires level >= 1
    ensures ds == InsideDeeds(script, mie)
    ensures own == EnterDeeds(script) + OwnMiddle(script, mie) + LeaveDeeds(script)
    ensures Rise(ds) == -1 && Own(ds, level) == Seen(level, own)
    decreases script, 1
  {
    var enter, leave := EnterDeeds(script), LeaveDeeds(script);
    EnterOwn(script, level);
    LeaveOwn(script, level);
    ds, own := MiddleOwn(script, mie, level);
    Joined(enter, enter, ds, own, level);
    Joined(enter + ds, enter + own, leave, leave, level);
    ds, own := enter + ds + leave, enter + own + leave;
  }

  /** A handler begins with its trap, and however many others nest inside it, what it does itself is:
    * its prologue, the four instructions of ENTRY, the instructions of its body in order, with a trap
    * for each interrupt that mie and MIE let through at that point and for no other, the four
    * instructions of EXIT, its epilogue, and mret. */
  lemma HandlerOwn(irq: nat, script: Script, mie: Mask)
    ensures var all := HandlerDeeds(irq, script, mie);
      && all != [] && all[0] == Taken(irq, script.vector) && Rise(all) == 0
      && Own(all, 0) ==
           Moves(script.prologue) + [Csr(Ack)]
           + [Csr(SaveMepc), Csr(SaveMstatus), Csr(SaveMie), Csr(EnableIrq)]
           + (OwnBody(script, |script.body|, mie)
              + ([Csr(Body)] + OwnLast(script, |script.last|, GateAt(script, |script.body|, mie))))
           + ([Csr(DisableIrq), Csr(RestoreMie), Csr(RestoreMstatus), Csr(RestoreMepc)]
              + Moves(script.epilogue) + [Csr(Return)])
  {
    var taken := Taken(irq, script.vector);
    var inside, own := InsideOwn(script, mie, 1);
    OneOwn(taken, 0);
    RiseAdds([taken], inside);
    var _, _ := OwnAdds([taken], inside, 0);
  }

  class Hart {
    var pc: nat
    var mode: Mode
    var mstatus: Status
    var mepc: nat
    var mie: Mask
    /** The active handlers with their locals. */
    ghost var frames: seq<Frame>

    ghost function View(): Core
      reads this
    {
      Core(pc, mode, mstatus, mepc, mie, frames)
    }

    predicate TrapReady()
      reads this
    {
      mode.User? || mstatus.mie
    }

    method Trap(irq: nat, vector: nat, ghost locals: Frame)
      requires TrapReady() && irq in mie
      modifies this
      ensures View() == Apply(old(View()), Step.Trap(irq, vector, locals))
      ensures pc == vector && mode.Machine? && mepc == old(pc) && mie == old(mie)
      ensures mstatus == Status(false, old(mstatus.mie), old(mode)) && |frames| == |old(frames)| + 1
    {
      mepc := pc;
      mstatus := Status(false, mstatus.mie, mode);
      mode := Machine;
      pc := vector;
      frames := frames + [locals.(phase := Ack)];
    }

    /** The last instruction of a handler's prologue, or of its body. */
    method Proceed()
      requires At(View(), Ack) || At(View(), Body)
      modifies this`pc, this`frames
      ensures View() == Advanced(old(View()))
    {
      frames := Advanced(View()).frames;
      pc := pc + 4;
    }

    method ReadMepc() returns (value: nat)
      requires At(View(), SaveMepc)
      modifies this`pc, this`frames
      ensures value == mepc && View() == Advanced(old(View()))
    {
      value := mepc;
      frames := Advanced(View()).frames;
      pc := pc + 4;
    }

    method ReadMstatus() returns (value: Status)
      requires At(View(), SaveMstatus)
      modifies this`pc, this`frames
      ensures value == mstatus && View() == Advanced(old(View()))
    {
      value := mstatus;
      frames := Advanced(View()).frames;
      pc := pc + 4;
    }

    method ReadMie() returns (value: Mask)
      requires At(View(), SaveMie)
      modifies this`pc, this`frames
      ensures value == mie && View() == Advanced(old(View()))
    {
      value := mie;
      frames := Advanced(View()).frames;
      pc := pc + 4;
    }

    /** csrsi or csrci of MIE. */
    method WriteMieBit(ie: bool)
      requires At(View(), if ie then EnableIrq else DisableIrq)
      modifies this`pc, this`mstatus, this`frames
      ensures View() == Advanced(old(View()))
    {
      frames := Advanced(View()).frames;
      mstatus := mstatus.(mie := ie);
      pc := pc + 4;
    }

    method WriteMie(value: Mask)
      requires At(View(), RestoreMie) && value == Top(View()).mieBak
      modifies this`pc, this`mie, this`frames
      ensures View() == Advanced(old(View()))
    {
      frames := Advanced(View()).frames;
      mie := value;
      pc := pc + 4;
    }

    method WriteMstatus(value: Status)
      requires At(View(), RestoreMstatus) && value == Top(View()).mstatusBak
      modifies this`pc, this`mstatus, this`frames
      ensures View() == Advanced(old(View()))
    {
      frames := Advanced(View()).frames;
      mstatus := value;
      pc := pc + 4;
    }

    method WriteMepc(value: nat)
      requires At(View(), RestoreMepc) && value == Top(View()).mepcBak
      modifies this`pc, this`mepc, this`frames
      ensures View() == Advanced(old(View()))
    {
      frames := Advanced(View()).frames;
      mepc := value;
      pc := pc + 4;
    }

    /** NESTED_IRQ_CRITICAL_SECTION_ENTRY: four steps, and the locals hold the copies. */
    method CriticalSectionEntry()
      returns (mepcBak: nat, mstatusBak: Status, mieBak: Mask, ghost steps: seq<Step>)
      requires At(View(), SaveMepc)
      modifies this`pc, this`mstatus, this`frames
      ensures Path(old(View()), steps, ENTRY, View())
      ensures mepcBak == mepc && mstatusBak == old(mstatus) && mieBak == mie
      ensures mstatus == old(mstatus).(mie := true)
      ensures frames == old(frames)[|old(frames)| - 1 := Frame(Body, mepcBak, mstatusBak, mieBak)]
    {
      steps := EntrySteps(View());
      mepcBak := ReadMepc();
      mstatusBak := ReadMstatus();
      mieBak := ReadMie();
      WriteMieBit(true);
    }

    /** NESTED_IRQ_CRITICAL_SECTION_EXIT: four steps. */
    method CriticalSectionExit(mepcBak: nat, mstatusBak: Status, mieBak: Mask) returns (ghost steps: seq<Step>)
      requires At(View(), DisableIrq) && Top(View()) == Frame(DisableIrq, mepcBak, mstatusBak, mieBak)
      modifies this`pc, this`mstatus, this`mepc, this`mie, this`frames
      ensures Path(old(View()), steps, EXIT, View())
      ensures mepc == mepcBak && mstatus == mstatusBak && mie == mieBak
      ensures frames == old(frames)[|old(frames)| - 1 := Frame(Return, mepcBak, mstatusBak, mieBak)]
    {
      steps := ExitSteps(View());
      ghost var e := ExitLeaves(View());
      WriteMieBit(false);
      WriteMie(mieBak);
      WriteMstatus(mstatusBak);
      WriteMepc(mepcBak);
      assert View() == e;
    }

    method MretInsn()
      requires At(View(), Return)
      modifies this`pc, this`mode, this`mstatus, this`frames
      ensures View() == Apply(old(View()), Advance(0))
      ensures pc == mepc && mode == old(mstatus.mpp) && mstatus == Status(old(mstatus.mpie), true, User)
      ensures |frames| == |old(frames)| - 1
    {
      pc := mepc;
      mode := mstatus.mpp;
      mstatus := Status(mstatus.mpie, true, User);
      frames := frames[..|frames| - 1];
    }

    /** Instructions of a prologue or epilogue. */
    method Walk(nexts: seq<nat>) returns (ghost steps: seq<Step>)
      requires At(View(), Ack) || At(View(), Return)
      modifies this`pc
      ensures Path(old(View()), steps, Moves(nexts), View())
    {
      steps := [];
      for i := 0 to |nexts|
        invariant Path(old(View()), steps, Moves(nexts[..i]), View())
      {
        PathMore(old(View()), steps, Moves(nexts[..i]), View(), Plain(nexts[i]));
        assert Moves(nexts[..i + 1]) == Moves(nexts[..i]) + [Ordinary(nexts[i])];
        steps := steps + [Plain(nexts[i])];
        pc := nexts[i];
      }
      assert nexts[..|nexts|] == nexts;
    }

    /** The handler's prologue. */
    method Begin(prologue: seq<nat>) returns (ghost steps: seq<Step>)
      requires At(View(), Ack)
      modifies this`pc, this`frames
      ensures Path(old(View()), steps, Moves(prologue) + [Csr(Ack)], View())
      ensures frames == old(frames)[|old(frames)| - 1 := Top(old(View())).(phase := SaveMepc)]
    {
      steps := Walk(prologue);
      PathMore(old(View()), steps, Moves(prologue), View(), Advance(pc + 4));
      steps := steps + [Advance(pc + 4)];
      Proceed();
    }

    /** Prologue and ENTRY, up to the first instruction of the body. */
    method Enter(script: Script)
      returns (mepcBak: nat, mstatusBak: Status, mieBak: Mask, ghost steps: seq<Step>)
      requires At(View(), Ack)
      modifies this`pc, this`mstatus, this`frames
      ensures Path(old(View()), steps, EnterDeeds(script), View())
      ensures mepcBak == mepc && mstatusBak == old(mstatus) && mieBak == mie && mstatus == old(mstatus).(mie := true)
      ensures frames == old(frames)[|old(frames)| - 1 := Frame(Body, mepcBak, mstatusBak, mieBak)]
    {
      steps := Begin(script.prologue);
      ghost var entry, more := View(), [];
      mepcBak, mstatusBak, mieBak, more := CriticalSectionEntry();
      PathAdds(old(View()), steps, Moves(script.prologue) + [Csr(Ack)], entry,
               more, ENTRY, View());
      steps := steps + more;
    }

    /** EXIT, the epilogue and mret. */
    method Leave(mepcBak: nat, mstatusBak: Status, mieBak: Mask, script: Script)
      returns (ghost steps: seq<Step>)
      requires At(View(), DisableIrq) && Top(View()) == Frame(DisableIrq, mepcBak, mstatusBak, mieBak)
      modifies this
      ensures Path(old(View()), steps, LeaveDeeds(script), View())
      ensures pc == mepcBak && mode == mstatusBak.mpp && mstatus.mie == mstatusBak.mpie && mie == mieBak
      ensures frames == old(frames)[..|old(frames)| - 1]
    {
      steps := CriticalSectionExit(mepcBak, mstatusBak, mieBak);
      ghost var exit := View();
      ghost var more := Walk(script.epilogue);
      PathAdds(old(View()), steps, EXIT, exit, more, Moves(script.epilogue), View());
      steps := steps + more;
      PathMore(old(View()), steps, EXIT + Moves(script.epilogue), View(), Advance(0));
      steps := steps + [Advance(0)];
      MretInsn();
    }

    /** An instruction of the body. */
    method Execute(next: nat, newMie: Mask, ie: bool)
      requires At(View(), Body)
      modifies this`pc, this`mie, this`mstatus
      ensures View() == Apply(old(View()), Work(next, newMie, ie))
      ensures pc == next && mie == newMie && mstatus == old(mstatus).(mie := ie)
    {
      pc, mie := next, newMie;
      mstatus := mstatus.(mie := ie);
    }

    /** The body up to its last instruction, which moves on to EXIT. */
    method RunItems(script: Script) returns (ghost steps: seq<Step>)
      requires mode.Machine? && mstatus.mie && At(View(), Body)
      modifies this
      ensures Path(old(View()), steps, BodyDeeds(script, |script.body|, old(mie)), View())
      ensures mode.Machine? && frames == old(frames)
      ensures Gate(mie, mstatus.mie) == GateAt(script, |script.body|, old(mie))
      decreases script, 1
    {
      steps := [];
      for i := 0 to |script.body|
        invariant mode.Machine? && frames == old(frames)
        invariant Gate(mie, mstatus.mie) == GateAt(script, i, old(mie))
        invariant Path(old(View()), steps, BodyDeeds(script, i, old(mie)), View())
      {
        ghost var before, done := View(), BodyDeeds(script, i, old(mie));
        match script.body[i]
        case Insn(next, newMie, ie) =>
          PathMore(old(View()), steps, done, before, Work(next, newMie, ie));
          Execute(next, newMie, ie);
          steps := steps + [Work(next, newMie, ie)];
        case Interrupt(arrival) =>
          ghost var more := Arrive(arrival);
          PathAdds(old(View()), steps, done, before,
                   more, ArrivalDeeds(arrival, GateAt(script, i, old(mie))), View());
          steps := steps + more;
      }
    }

    /** The interrupts that still come in before EXIT has cleared MIE. */
    method TakeLast(script: Script) returns (ghost steps: seq<Step>)
      requires mode.Machine?
      modifies this
      ensures Path(old(View()), steps, LastDeeds(script, |script.last|, Gate(old(mie), old(mstatus.mie))), View())
      ensures mode.Machine? && frames == old(frames)
      decreases script, 1
    {
      ghost var g := Gate(mie, mstatus.mie);
      steps := [];
      for i := 0 to |script.last|
        invariant mode.Machine? && frames == old(frames) && g == Gate(mie, mstatus.mie)
        invariant Path(old(View()), steps, LastDeeds(script, i, g), View())
      {
        ghost var before := View();
        ghost var more := Arrive(script.last[i]);
        PathAdds(old(View()), steps, LastDeeds(script, i, g), before, more, ArrivalDeeds(script.last[i], g), View());
        steps := steps + more;
      }
    }

    /** The last instruction of the body, and what comes before EXIT has cleared MIE. */
    method EndBody(script: Script) returns (ghost steps: seq<Step>)
      requires mode.Machine? && At(View(), Body)
      modifies this
      ensures Path(old(View()), steps, EndDeeds(script, Gate(old(mie), old(mstatus.mie))), View())
      ensures mode.Machine?
      ensures frames == old(frames)[|old(frames)| - 1 := Top(old(View())).(phase := DisableIrq)]
      decreases script, 2
    {
      ghost var g := Gate(mie, mstatus.mie);
      PathMore(View(), [], [], View(), Advance(pc + 4));
      steps := [] + [Advance(pc + 4)];
      Proceed();
      ghost var before := View();
      ghost var more := TakeLast(script);
      PathAdds(old(View()), steps, [] + [Csr(Body)], before, more, LastDeeds(script, |script.last|, g), View());
      steps := steps + more;
    }

    /** From the first instruction of the body to the one that clears MIE. */
    method RunBody(script: Script, ghost f: Frame) returns (ghost steps: seq<Step>)
      requires mode.Machine? && mstatus.mie && frames != [] && Top(View()) == f && f.phase.Body?
      modifies this
      ensures Path(old(View()), steps, MiddleDeeds(script, old(mie)), View())
      ensures mode.Machine? && frames == old(frames)[|old(frames)| - 1 := f.(phase := DisableIrq)]
      decreases script, 3
    {
      steps := RunItems(script);
      ghost var before, g := View(), Gate(mie, mstatus.mie);
      ghost var more := EndBody(script);
      PathAdds(old(View()), steps, BodyDeeds(script, |script.body|, old(mie)), before,
               more, EndDeeds(script, g), View());
      steps := steps + more;
    }

    /** An interrupt is taken if and only if it can be, and leaves no trace. */
    method Arrive(arrival: Arrival) returns (ghost steps: seq<Step>)
      requires mode.Machine?
      modifies this
      ensures Path(old(View()), steps, ArrivalDeeds(arrival, Gate(old(mie), old(mstatus.mie))), View())
      ensures OriginOf(View()) == OriginOf(old(View())) && frames == old(frames)
      decreases arrival, 0
    {
      steps := [];
      if TrapReady() && arrival.irq in mie {
        steps := Handler(arrival.irq, arrival.script);
      }
    }

    /** From the first instruction of a handler to its mret. */
    method RunHandler(script: Script) returns (ghost steps: seq<Step>)
      requires mode.Machine? && At(View(), Ack)
      modifies this
      ensures Path(old(View()), steps, InsideDeeds(script, old(mie)), View())
      ensures pc == old(mepc) && mode == old(mstatus.mpp) && mstatus.mie == old(mstatus.mpie) && mie == old(mie)
      ensures frames == old(frames)[..|old(frames)| - 1]
      decreases script, 4
    {
      ghost var mask, at, more := mie, View(), [];
      var mepcBak, mstatusBak, mieBak;
      mepcBak, mstatusBak, mieBak, steps := Enter(script);
      at := View();
      more := RunBody(script, Frame(Body, mepcBak, mstatusBak, mieBak));
      PathAdds(old(View()), steps, EnterDeeds(script), at, more, MiddleDeeds(script, mask), View());
      steps, at := steps + more, View();
      more := Leave(mepcBak, mstatusBak, mieBak, script);
      PathAdds(old(View()), steps, EnterDeeds(script) + MiddleDeeds(script, mask), at,
               more, LeaveDeeds(script), View());
      steps := steps + more;
    }

    /** TIMER_IRQHandler, GPIO_IRQHandler or I2C_IRQHandler, with its trap and its mret. What happens is
      * a run of the step machine that does exactly what the script says, interrupts of the body
      * included, and the whole tree of them leaves no trace at the point of interruption. */
    method Handler(irq: nat, script: Script) returns (ghost steps: seq<Step>)
      requires TrapReady() && irq in mie
      modifies this
      ensures Path(old(View()), steps, HandlerDeeds(irq, script, old(mie)), View())
      ensures steps != [] && steps[0].Trap? && steps[0].irq == irq && steps[0].vector == script.vector
      ensures OriginOf(View()) == OriginOf(old(View())) && frames == old(frames)
      decreases script, 5
    {
      ghost var locals, mask := Frame(Ack, 0, mstatus, mie), mie;
      ghost var trap := Step.Trap(irq, script.vector, locals);
      PathMore(View(), [], [], View(), trap);
      Trap(irq, script.vector, locals);
      ghost var at := View();
      ghost var more := RunHandler(script);
      PathAdds(old(View()), [] + [trap], [] + [Taken(irq, script.vector)], at, more, InsideDeeds(script, mask), View());
      steps := [] + [trap] + more;
    }
  }
}
