/** The timer driver of common/drivers/v0.5: a write-mostly control register behind a shadow. */
module Timer {

  const CNT_EN: bv32 := 0x1
  const ENA_INT: bv32 := 0x2
  const FLAG: bv32 := 0x4
  const PRE_SCALR_MSK: bv32 := 0xF00

  function PreScalr(value: bv8): bv32 {
    ((value & 0xF) as bv32) << 8
  }

  /** The calls of the driver. */
  datatype Op = Init | AckIntrq | ClearCtrl | Set(mod: bv16, preScl: bv8) | Enable

  /** The shadow and the two registers as last written. */
  datatype State = State(shadow: bv32, ctrl: bv32, mod: bv32)

  function Apply(s: State, op: Op): State {
    match op
    case Init => State(0, 0, 0)
    case AckIntrq => s.(ctrl := FLAG)
    case ClearCtrl => s.(shadow := 0, ctrl := 0)
    case Set(mod, preScl) =>
      var shadow := (s.shadow & !PRE_SCALR_MSK) | PreScalr(preScl);
      State(shadow, shadow, mod as bv32)
    case Enable =>
      var shadow := s.shadow | CNT_EN | ENA_INT;
      s.(shadow := shadow, ctrl := shadow)
  }

  class Device {
    var shadow: bv32
    var ctrl: bv32
    var mod: bv32

    function View(): State
      reads this
    {
      State(shadow, ctrl, mod)
    }

    /** The static shadow starts at 0; the registers hold anything. */
    constructor (ctrl: bv32, mod: bv32)
      ensures View() == State(0, ctrl, mod)
    {
      shadow, this.ctrl, this.mod := 0, ctrl, mod;
    }

    method TimerInit()
      modifies this
      ensures View() == Apply(old(View()), Init)
      ensures shadow == 0 && ctrl == 0 && mod == 0
    {
      shadow := 0;
      ctrl := shadow;
      mod := 0;
    }

    method TimerAckIntrq()
      modifies this`ctrl
      ensures View() == Apply(old(View()), AckIntrq)
      ensures ctrl == 0x4
    {
      ctrl := FLAG;
    }

    method TimerClearCtrl()
      modifies this`shadow, this`ctrl
      ensures View() == Apply(old(View()), ClearCtrl)
      ensures shadow == 0 && ctrl == 0
    {
      shadow := 0;
      ctrl := shadow;
    }

    method TimerSet(newMod: bv16, preScl: bv8)
      modifies this
      ensures View() == Apply(old(View()), Set(newMod, preScl))
    {
      shadow := shadow & !PRE_SCALR_MSK;
      shadow := shadow | PreScalr(preScl);
      mod := newMod as bv32;
      ctrl := shadow;
    }

    method TimerEn()
      modifies this`shadow, this`ctrl
      ensures View() == Apply(old(View()), Enable)
      ensures ctrl == shadow == old(shadow) | 0x3
    {
      shadow := shadow | CNT_EN | ENA_INT;
      ctrl := shadow;
    }
  }

  function Run(s: State, ops: seq<Op>): State
    decreases |ops|
  {
    if ops == [] then s else Apply(Run(s, ops[..|ops| - 1]), ops[|ops| - 1])
  }

  predicate Resets(op: Op) {
    op.Init? || op.ClearCtrl?
  }

  /** Was timer_en called since the last init or clear? */
  function Armed(ops: seq<Op>): bool
    decreases |ops|
  {
    if ops == [] then false
    else
      var last := ops[|ops| - 1];
      if Resets(last) then false else last.Enable? || Armed(ops[..|ops| - 1])
  }

  /** The prescaler of the last timer_set since the last init or clear, else 0. */
  function Prescaler(ops: seq<Op>): bv8
    decreases |ops|
  {
    if ops == [] then 0
    else
      var last := ops[|ops| - 1];
      if Resets(last) then 0 else if last.Set? then last.preScl else Prescaler(ops[..|ops| - 1])
  }

  /** The period of the last timer_set since the last init: 0 after an init, before any as it was. */
  function Period(ops: seq<Op>, was: bv32): bv32
    decreases |ops|
  {
    if ops == [] then was
    else
      var last := ops[|ops| - 1];
      if last.Init? then 0 else if last.Set? then last.mod as bv32 else Period(ops[..|ops| - 1], was)
  }

  function Bits(preScl: bv8, armed: bool): bv32 {
    PreScalr(preScl) | if armed then CNT_EN | ENA_INT else 0
  }

  lemma BitsStep(preScl: bv8, armed: bool, next: bv8)
    ensures (Bits(preScl, armed) & !PRE_SCALR_MSK) | PreScalr(next) == Bits(next, armed)
    ensures Bits(preScl, armed) | CNT_EN | ENA_INT == Bits(preScl, true)
    ensures Bits(0, false) == 0
  {
  }

  /** After any calls the shadow is the low four bits of the last prescaler, both enable bits
    * exactly if armed, and nothing else. */
  lemma {:induction false} ShadowMeaning(s: State, ops: seq<Op>)
    requires s.shadow == 0
    ensures Run(s, ops).shadow == Bits(Prescaler(ops), Armed(ops))
    decreases |ops|
  {
    if ops == [] {
      BitsStep(0, false, 0);
    } else {
      var before, last := ops[..|ops| - 1], ops[|ops| - 1];
      ShadowMeaning(s, before);
      BitsStep(Prescaler(before), Armed(before), if last.Set? then last.preScl else 0);
    }
  }

  /** After any calls: CTRL holds the flag bit alone if the last was an acknowledge, and otherwise the
    * prescaler and the enable bits that the calls since the last init or clear ask for; MOD holds the
    * period. */
  lemma {:induction false} RegistersMeaning(s: State, ops: seq<Op>)
    requires s.shadow == 0 && ops != []
    ensures Run(s, ops).ctrl ==
      if ops[|ops| - 1].AckIntrq? then 0x4
      else (((Prescaler(ops) & 0xF) as bv32) << 8) | if Armed(ops) then 0x3 else 0
    ensures Run(s, ops).mod == Period(ops, s.mod)
    decreases |ops|
  {
    ShadowMeaning(s, ops);
    if |ops| > 1 {
      RegistersMeaning(s, ops[..|ops| - 1]);
    }
  }

  lemma ArmedBits(preScl: bv8, armed: bool)
    ensures Bits(preScl, armed) & CNT_EN != 0 <==> armed
    ensures Bits(preScl, armed) & ENA_INT != 0 <==> armed
    ensures Bits(preScl, armed) & FLAG == 0
    ensures Bits(preScl, armed) & !(PRE_SCALR_MSK | CNT_EN | ENA_INT) == 0
    ensures FLAG & CNT_EN == 0 && FLAG & ENA_INT == 0
  {
  }

  /** Acknowledging disarms the hardware whatever was set; timer_set alone then re-arms it exactly
    * if it was armed before, with the new prescaler. */
  lemma AckThenSetRearms(s: State, ops: seq<Op>, mod: bv16, preScl: bv8)
    requires s.shadow == 0
    ensures var acked := Run(s, ops + [AckIntrq]);
      acked.ctrl & CNT_EN == 0 && acked.ctrl & ENA_INT == 0
    ensures var after := Run(s, ops + [AckIntrq, Set(mod, preScl)]);
      && (after.ctrl & CNT_EN != 0 <==> Armed(ops)) && (after.ctrl & ENA_INT != 0 <==> Armed(ops))
      && after.ctrl & PRE_SCALR_MSK == PreScalr(preScl) && after.mod == mod as bv32
  {
    var acked, all := ops + [AckIntrq], ops + [AckIntrq, Set(mod, preScl)];
    assert acked[..|acked| - 1] == ops;
    assert all[..|all| - 1] == acked;
    ShadowMeaning(s, all);
    ArmedBits(preScl, Armed(ops));
  }

  /** An enabled timer, acknowledged and set: it runs again without timer_en. */
  lemma RearmExample(s: State)
    requires s.shadow == 0
    ensures Run(s, [Enable] + [AckIntrq, Set(1000, 2)]).ctrl & CNT_EN != 0
  {
    assert [Enable][..|[Enable]| - 1] == [];
    AckThenSetRearms(s, [Enable], 1000, 2);
  }
}
