/** Nested interrupts: the handlers of nested_interrupts/core/src/int.c, instruction by instruction
  * where CSRs are involved, on a hart that takes a trap wherever the RISC-V Privileged
  * Architecture (version 20211203, sections 3.1.6.1 and 3.3.2) lets it. */
module NestedIrq {

  datatype Mode = User | Machine

  /** mie, as the set of the bits that are set. */
  type Mask = set<nat>

  /** mstatus: MIE, MPIE and MPP. */
  datatype Status = Status(mie: bool, mpie: bool, mpp: Mode)

  /** Where a handler stands: the instruction it executes next, or somewhere in its prologue
    * (Ack), its body, or its epilogue (Return). */
  datatype Phase =
    | Ack | SaveMepc | SaveMstatus | SaveMie | EnableIrq
    | Body
    | DisableIrq | RestoreMie | RestoreMstatus | RestoreMepc | Return

  /** A handler's locals. */
  datatype Frame = Frame(phase: Phase, mepcBak: nat, mstatusBak: Status, mieBak: Mask)

  datatype Core = Core(pc: nat, mode: Mode, mstatus: Status, mepc: nat, mie: Mask, frames: seq<Frame>)

  /** One step: an interrupt is taken (the new locals hold anything); a handler executes the
    * instruction of its phase; a handler executes some other instruction of its prologue, epilogue
    * or body, the last possibly writing mie or toggling MIE; the main program does anything. */
  datatype Step =
    | Trap(irq: nat, vector: nat, locals: Frame)
    | Advance(next: nat)
    | Plain(next: nat)
    | Work(next: nat, mie: Mask, ie: bool)
    | Main(core: Core)

  function Top(c: Core): Frame
    requires c.frames != []
  {
    c.frames[|c.frames| - 1]
  }

  function WithTop(c: Core, f: Frame): Core
    requires c.frames != []
  {
    c.(frames := c.frames[|c.frames| - 1 := f])
  }

  /** Interrupts are taken below machine mode whatever MIE says, in machine mode if MIE is set. */
  predicate Interruptible(c: Core) {
    c.mode.User? || c.mstatus.mie
  }

  predicate Can(c: Core, s: Step) {
    match s
    case Trap(irq, _, _) => Interruptible(c) && irq in c.mie
    case Advance(_) => c.frames != []
    case Plain(_) => c.frames != [] && (Top(c).phase.Ack? || Top(c).phase.Return?)
    case Work(_, _, _) => c.frames != [] && Top(c).phase.Body?
    case Main(core) => c.frames == [] && core.frames == []
  }

  function TakeTrap(c: Core, vector: nat, locals: Frame): Core {
    Core(vector, Machine, Status(false, c.mstatus.mie, c.mode), c.pc, c.mie,
         c.frames + [locals.(phase := Ack)])
  }

  /** mret: MPP becomes the least privileged mode. */
  function Mret(c: Core): Core
    requires c.frames != []
  {
    Core(c.mepc, c.mstatus.mpp, Status(c.mstatus.mpie, true, User), c.mepc, c.mie,
         c.frames[..|c.frames| - 1])
  }

  /** The instruction of the top handler's phase. */
  function Execute(c: Core): Core
    requires c.frames != []
  {
    var f := Top(c);
    match f.phase
    case Ack => WithTop(c, f.(phase := SaveMepc))
    case SaveMepc => WithTop(c, f.(phase := SaveMstatus, mepcBak := c.mepc))
    case SaveMstatus => WithTop(c, f.(phase := SaveMie, mstatusBak := c.mstatus))
    case SaveMie => WithTop(c, f.(phase := EnableIrq, mieBak := c.mie))
    case EnableIrq => WithTop(c.(mstatus := c.mstatus.(mie := true)), f.(phase := Body))
    case Body => WithTop(c, f.(phase := DisableIrq))
    case DisableIrq => WithTop(c.(mstatus := c.mstatus.(mie := false)), f.(phase := RestoreMie))
    case RestoreMie => WithTop(c.(mie := f.mieBak), f.(phase := RestoreMstatus))
    case RestoreMstatus => WithTop(c.(mstatus := f.mstatusBak), f.(phase := RestoreMepc))
    case RestoreMepc => WithTop(c.(mepc := f.mepcBak), f.(phase := Return))
    case Return => Mret(c)
  }

  function Apply(c: Core, s: Step): Core
    requires Can(c, s)
  {
    match s
    case Trap(_, vector, locals) => TakeTrap(c, vector, locals)
    case Advance(next) => if Top(c).phase.Return? then Execute(c) else Execute(c).(pc := next)
    case Plain(next) => c.(pc := next)
    case Work(next, mie, ie) => c.(pc := next, mie := mie, mstatus := c.mstatus.(mie := ie))
    case Main(core) => core
  }

  // ---- Origins: what each handler on the stack interrupted ----

  datatype Origin = Origin(pc: nat, mode: Mode, ie: bool, mie: Mask)

  function OriginOf(c: Core): Origin {
    Origin(c.pc, c.mode, c.mstatus.mie, c.mie)
  }

  function NextOrigins(c: Core, s: Step, os: seq<Origin>): seq<Origin>
    requires |os| == |c.frames| && Can(c, s)
  {
    match s
    case Trap(_, _, _) => os + [OriginOf(c)]
    case Advance(_) => if Top(c).phase.Return? then os[..|os| - 1] else os
    case _ => os
  }

  predicate MstatusFor(m: Status, o: Origin) {
    m == Status(false, o.ie, o.mode)
  }

  predicate Live(c: Core, o: Origin) {
    c.mepc == o.pc && MstatusFor(c.mstatus, o) && c.mie == o.mie
  }

  predicate Saved(f: Frame, o: Origin) {
    f.mepcBak == o.pc && MstatusFor(f.mstatusBak, o) && f.mieBak == o.mie
  }

  /** The top handler can still get back to `o`. */
  predicate TopGood(c: Core, o: Origin)
    requires c.frames != []
  {
    var f := Top(c);
    match f.phase
    case Ack => Live(c, o)
    case SaveMepc => Live(c, o)
    case SaveMstatus => Live(c, o) && f.mepcBak == o.pc
    case SaveMie => Live(c, o) && f.mepcBak == o.pc && MstatusFor(f.mstatusBak, o)
    case EnableIrq => Live(c, o) && Saved(f, o)
    case Body => Saved(f, o)
    case DisableIrq => Saved(f, o)
    case RestoreMie => Saved(f, o) && !c.mstatus.mie
    case RestoreMstatus => Saved(f, o) && !c.mstatus.mie && c.mie == o.mie
    case RestoreMepc => Saved(f, o) && MstatusFor(c.mstatus, o) && c.mie == o.mie
    case Return => Live(c, o)
  }

  /** An interrupted handler: all saved, nothing restored yet. */
  predicate Parked(f: Frame, o: Origin) {
    Saved(f, o) && (f.phase.Body? || f.phase.DisableIrq?)
  }

  ghost predicate Inv(c: Core, os: seq<Origin>) {
    && |os| == |c.frames|
    && (c.frames != [] ==> c.mode.Machine? && TopGood(c, os[|os| - 1]))
    && (forall k :: 0 <= k < |c.frames| - 1 ==> Parked(c.frames[k], os[k]))
    && (forall k :: 1 <= k < |os| ==> os[k].mode.Machine? && os[k].ie)
  }

  lemma TrapKeepsInv(c: Core, os: seq<Origin>, s: Step)
    requires Inv(c, os) && Can(c, s) && s.Trap?
    ensures Inv(Apply(c, s), NextOrigins(c, s, os))
  {
    assert c.frames != [] ==> Parked(Top(c), os[|os| - 1]);
  }

  lemma ReturnKeepsInv(c: Core, os: seq<Origin>, s: Step)
    requires Inv(c, os) && Can(c, s) && s.Advance? && Top(c).phase.Return?
    ensures Inv(Apply(c, s), NextOrigins(c, s, os))
    ensures OriginOf(Apply(c, s)) == os[|os| - 1]
  {
    var k := |os| - 2;
    assert k >= 0 ==> Parked(c.frames[k], os[k]);
  }

  /** A step that changes nothing but the registers and the top frame. */
  lemma TopChanged(c: Core, os: seq<Origin>, e: Core)
    requires Inv(c, os) && c.frames != [] && |e.frames| == |c.frames|
    requires e.frames[..|c.frames| - 1] == c.frames[..|c.frames| - 1]
    requires e.mode.Machine? && TopGood(e, os[|os| - 1])
    ensures Inv(e, os)
  {
    forall k | 0 <= k < |c.frames| - 1
      ensures Parked(e.frames[k], os[k])
    {
      assert e.frames[k] == e.frames[..|c.frames| - 1][k] == c.frames[k];
    }
  }

  lemma ExecuteKeepsTop(c: Core, os: seq<Origin>)
    requires Inv(c, os) && c.frames != [] && !Top(c).phase.Return?
    ensures |Execute(c).frames| == |c.frames|
    ensures Execute(c).frames[..|c.frames| - 1] == c.frames[..|c.frames| - 1]
    ensures Execute(c).mode.Machine? && TopGood(Execute(c), os[|os| - 1])
  {
  }

  lemma StepKeepsInv(c: Core, os: seq<Origin>, s: Step)
    requires Inv(c, os) && Can(c, s)
    ensures Inv(Apply(c, s), NextOrigins(c, s, os))
  {
    match s
    case Trap(_, _, _) => TrapKeepsInv(c, os, s);
    case Advance(_) =>
      if Top(c).phase.Return? {
        ReturnKeepsInv(c, os, s);
      } else {
        ExecuteKeepsTop(c, os);
        TopChanged(c, os, Apply(c, s));
      }
    case Plain(_) => TopChanged(c, os, Apply(c, s));
    case Work(_, _, _) => TopChanged(c, os, Apply(c, s));
    case Main(_) =>
  }

  // ---- Runs ----

  /** A run, from a state with no handler active. */
  ghost predicate Run(cs: seq<Core>, steps: seq<Step>) {
    && |cs| == |steps| + 1
    && cs[0].frames == []
    && forall i :: 0 <= i < |steps| ==> Can(cs[i], steps[i]) && cs[i + 1] == Apply(cs[i], steps[i])
  }

  /** What the handlers active after `i` steps interrupted, read off the run. */
  ghost function OriginsAt(cs: seq<Core>, steps: seq<Step>, i: nat): (os: seq<Origin>)
    requires Run(cs, steps) && i <= |steps|
    ensures |os| == |cs[i].frames|
  {
    if i == 0 then []
    else
      assert cs[i] == Apply(cs[i - 1], steps[i - 1]);
      NextOrigins(cs[i - 1], steps[i - 1], OriginsAt(cs, steps, i - 1))
  }

  lemma {:induction false} RunKeepsInv(cs: seq<Core>, steps: seq<Step>, i: nat)
    requires Run(cs, steps) && i <= |steps|
    ensures Inv(cs[i], OriginsAt(cs, steps, i))
    decreases i
  {
    if i > 0 {
      RunKeepsInv(cs, steps, i - 1);
      assert cs[i] == Apply(cs[i - 1], steps[i - 1]);
      StepKeepsInv(cs[i - 1], OriginsAt(cs, steps, i - 1), steps[i - 1]);
    }
  }

  /** In every reachable state: if MIE is set while a handler is on top, that handler has saved
    * everything and restored nothing; every handler below it is in the same position; and the
    * copies are of the state each one interrupted. */
  lemma SafeToInterrupt(cs: seq<Core>, steps: seq<Step>, i: nat, k: nat)
    requires Run(cs, steps) && i <= |steps| && k < |cs[i].frames|
    requires k < |cs[i].frames| - 1 || Interruptible(cs[i])
    ensures Parked(cs[i].frames[k], OriginsAt(cs, steps, i)[k])
  {
    RunKeepsInv(cs, steps, i);
  }

  /** One step that leaves more than d handlers active leaves the first d, and the first d + 1
    * origins, as they were. */
  lemma StepBelow(c: Core, s: Step, os: seq<Origin>, d: nat)
    requires |os| == |c.frames| && Can(c, s) && |c.frames| > d && |Apply(c, s).frames| > d
    ensures Apply(c, s).frames[..d] == c.frames[..d]
    ensures NextOrigins(c, s, os)[..d + 1] == os[..d + 1]
  {
  }

  /** The trap itself. */
  lemma TrapPushes(cs: seq<Core>, steps: seq<Step>, i: nat)
    requires Run(cs, steps) && i < |steps| && steps[i].Trap?
    ensures cs[i + 1].frames[..|cs[i].frames|] == cs[i].frames
    ensures OriginsAt(cs, steps, i + 1)[|cs[i].frames|] == OriginOf(cs[i])
  {
    assert cs[i + 1] == Apply(cs[i], steps[i]);
    assert OriginsAt(cs, steps, i + 1) == OriginsAt(cs, steps, i) + [OriginOf(cs[i])];
  }

  lemma StepStays(cs: seq<Core>, steps: seq<Step>, j: nat, d: nat)
    requires Run(cs, steps) && j < |steps| && |cs[j].frames| > d && |cs[j + 1].frames| > d
    ensures cs[j + 1].frames[..d] == cs[j].frames[..d]
    ensures OriginsAt(cs, steps, j + 1)[d] == OriginsAt(cs, steps, j)[d]
  {
    var os, next := OriginsAt(cs, steps, j), OriginsAt(cs, steps, j + 1);
    assert cs[j + 1] == Apply(cs[j], steps[j]) && next == NextOrigins(cs[j], steps[j], os);
    StepBelow(cs[j], steps[j], os, d);
    assert next[d] == next[..d + 1][d] && os[d] == os[..d + 1][d];
  }

  /** From the trap at step i on, as long as its handler is active, its origin and everything
    * below it stay. */
  lemma {:induction false} BelowStays(cs: seq<Core>, steps: seq<Step>, i: nat, j: nat)
    requires Run(cs, steps) && i < j <= |steps| && steps[i].Trap?
    requires forall m :: i < m <= j ==> |cs[m].frames| > |cs[i].frames|
    ensures cs[j].frames[..|cs[i].frames|] == cs[i].frames
    ensures OriginsAt(cs, steps, j)[|cs[i].frames|] == OriginOf(cs[i])
    decreases j
  {
    if j == i + 1 {
      TrapPushes(cs, steps, i);
    } else {
      BelowStays(cs, steps, i, j - 1);
      StepStays(cs, steps, j - 1, |cs[i].frames|);
    }
  }

  /** Interrupts nested to any depth: when the handler of the trap at step i returns (at step j
    * the stack is for the first time back to what it was), execution resumes at the very pc and
    * mode it interrupted, with the same MIE and mie, and every outer handler untouched. */
  lemma HandlerResumes(cs: seq<Core>, steps: seq<Step>, i: nat, j: nat)
    requires Run(cs, steps) && i < j < |steps| && steps[i].Trap?
    requires forall m :: i < m <= j ==> |cs[m].frames| > |cs[i].frames|
    requires |cs[j + 1].frames| == |cs[i].frames|
    ensures steps[j].Advance? && Top(cs[j]).phase.Return?
    ensures OriginOf(cs[j + 1]) == OriginOf(cs[i])
    ensures cs[j + 1].frames == cs[i].frames
  {
    BelowStays(cs, steps, i, j);
    RunKeepsInv(cs, steps, j);
    assert Can(cs[j], steps[j]) && cs[j + 1] == Apply(cs[j], steps[j]);
    ReturnKeepsInv(cs[j], OriginsAt(cs, steps, j), steps[j]);
  }

  // ---- That nesting has no end ----

  predicate At(c: Core, phase: Phase) {
    c.frames != [] && Top(c).phase == phase
  }

  lemma RunMore(cs: seq<Core>, steps: seq<Step>, s: Step) returns (ds: seq<Core>, more: seq<Step>)
    requires Run(cs, steps) && Can(cs[|steps|], s)
    ensures Run(ds, more) && ds == cs + [Apply(cs[|steps|], s)] && more == steps + [s]
  {
    ds, more := cs + [Apply(cs[|steps|], s)], steps + [s];
  }

  /** The instruction of phase p leads to phase q. */
  lemma Onward(cs: seq<Core>, steps: seq<Step>, p: Phase, q: Phase) returns (ds: seq<Core>, more: seq<Step>)
    requires Run(cs, steps) && At(cs[|steps|], p)
    requires (p, q) in {(Ack, SaveMepc), (SaveMepc, SaveMstatus), (SaveMstatus, SaveMie), (SaveMie, EnableIrq),
                        (EnableIrq, Body)}
    ensures Run(ds, more) && steps < more
    ensures var c, d := cs[|steps|], ds[|more|];
      && |d.frames| == |c.frames| && At(d, q) && d.mode == c.mode && d.mie == c.mie
      && d.mstatus.mie == (c.mstatus.mie || p.EnableIrq?)
  {
    ds, more := RunMore(cs, steps, Advance(0));
  }

  /** One handler more is active, in its body, with interrupts let through as before. */
  lemma NestsAgain(cs: seq<Core>, steps: seq<Step>, irq: nat, vector: nat)
    returns (ds: seq<Core>, more: seq<Step>)
    requires Run(cs, steps) && irq in cs[|steps|].mie
    requires cs[|steps|].mode.User? || cs[|steps|].mstatus.mie
    ensures Run(ds, more) && steps < more
    ensures var c, d := cs[|steps|], ds[|more|];
      |d.frames| == |c.frames| + 1 && At(d, Body) && d.mode.Machine? && d.mstatus.mie && d.mie == c.mie
  {
    ds, more := RunMore(cs, steps, Trap(irq, vector, Frame(Ack, 0, Status(false, false, User), {})));
    ds, more := Onward(ds, more, Ack, SaveMepc);
    ds, more := Onward(ds, more, SaveMepc, SaveMstatus);
    ds, more := Onward(ds, more, SaveMstatus, SaveMie);
    ds, more := Onward(ds, more, SaveMie, EnableIrq);
    ds, more := Onward(ds, more, EnableIrq, Body);
  }

  /** Interrupts nest to any depth: from any run whose last state lets an interrupt in, there is one with
    * n handlers more, each interrupted in its body. */
  lemma {:induction false} AnyDepth(cs: seq<Core>, steps: seq<Step>, irq: nat, vector: nat, n: nat)
    returns (ds: seq<Core>, more: seq<Step>)
    requires Run(cs, steps) && irq in cs[|steps|].mie
    requires cs[|steps|].mode.User? || cs[|steps|].mstatus.mie
    ensures Run(ds, more) && steps <= more && |ds[|more|].frames| == |cs[|steps|].frames| + n
    decreases n
  {
    ds, more := cs, steps;
    if n > 0 {
      ds, more := NestsAgain(cs, steps, irq, vector);
      ds, more := AnyDepth(ds, more, irq, vector, n - 1);
    }
  }
}
