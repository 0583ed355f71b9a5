/** Whole interrupt transfers: how many interrupts they take, and how they compare with the
  * blocking forms against the same slave. */
module I2cRuns {
  import opened Memory
  import opened I2cBus
  import opened I2cDriver
  import opened I2cProgress

  /** The next interrupt completes the transfer. */
  ghost predicate Last(s: Slave, o: Outcome, r: Request, p: Position)
    requires r.way.Interrupt? && Fits(r, |o.mem|)
  {
    p.Moving? && p.j == Limit(s, o, r, p.k)
  }

  lemma OneInterrupt(s: Slave, d: Driver, o: Outcome, r: Request, p: Position) returns (e: Driver, q: Position)
    requires Running(s, d, o, r, p)
    ensures Inside(d) && e == Service(s, d)
    ensures Completes(s, d) <==> Last(s, o, r, p)
    ensures Last(s, o, r, p) ==> Finished(s, e, o, r, p.k) && e.reports == d.reports + [r.dir]
    ensures !Last(s, o, r, p) ==>
      Running(s, e, o, r, q) && Served(q) == Served(p) + 1 && e.reports == d.reports
  {
    q := p;
    match p {
      case Asking(a) =>
        if s(d.log).nack {
          AskAgain(s, d, o, r, a);
          q := Asking(a + 1);
        } else {
          if r.dir.Tx? { SendFirst(s, d, o, r, a); } else { ReadFirst(s, d, o, r, a); }
          q := Moving(a, 1);
        }
      case Moving(k, j) =>
        if r.dir.Tx? { SendStep(s, d, o, r, k, j); } else { ReadStep(s, d, o, r, k, j); }
        if !Last(s, o, r, p) { q := Moving(k, j + 1); }
    }
    e := Service(s, d);
  }

  /** `i` interrupts in a row, with a callback that does nothing. */
  function Serve(s: Slave, d: Driver, i: nat): Driver
    decreases i
  {
    if i == 0 || !Inside(d) then d else Serve(s, Service(s, d), i - 1)
  }

  lemma ServedAtMost(s: Slave, d: Driver, o: Outcome, r: Request, p: Position, k: nat)
    requires Running(s, d, o, r, p) && AckAfter(s, o.log, Address(r), k)
    ensures p.Moving? ==> p.k == k
    ensures Served(p) <= k + Limit(s, o, r, k)
    ensures Served(p) == k + Limit(s, o, r, k) <==> Last(s, o, r, p)
  {
    match p
    case Asking(a) =>
      var refused := Repeat(Address(r), k + 1);
      assert a <= k || s(o.log + refused).nack;
    case Moving(k', j) =>
      NacksIs(s, o.log, Address(r), k);
      NacksIs(s, o.log, Address(r), k');
  }

  lemma NextInterrupt(s: Slave, d: Driver, o: Outcome, r: Request, p: Position, k: nat)
    returns (e: Driver, q: Position)
    requires Running(s, d, o, r, p) && AckAfter(s, o.log, Address(r), k) && Served(p) < k + Limit(s, o, r, k)
    ensures Inside(d) && e == Service(s, d) && Running(s, e, o, r, q)
    ensures Served(q) == Served(p) + 1 && e.reports == d.reports
  {
    ServedAtMost(s, d, o, r, p, k);
    e, q := OneInterrupt(s, d, o, r, p);
  }

  /** What holds at first, and is kept by each of the first n interrupts, holds after i of them. */
  lemma {:induction false} ServeKeeps(s: Slave, d: Driver, i: nat, n: nat, inv: (Driver, nat) -> bool)
    requires i <= n && inv(d, n - i)
    requires forall e: Driver, m: nat :: inv(e, m) && m < n ==> Inside(e) && inv(Service(s, e), m + 1)
    ensures inv(Serve(s, d, i), n)
    decreases i
  {
    if i > 0 {
      assert inv(d, n - i) && n - i < n;
      ServeKeeps(s, Service(s, d), i - 1, n, inv);
    }
  }

  /** The transfer is under way, n interrupts on, and nothing is reported. */
  ghost predicate Onward(s: Slave, e: Driver, o: Outcome, r: Request, reports: seq<Direction>, n: nat) {
    e.reports == reports && exists q :: Running(s, e, o, r, q) && Served(q) == n
  }

  lemma OnwardKeeps(s: Slave, e: Driver, o: Outcome, r: Request, k: nat, reports: seq<Direction>, n: nat)
    requires AckAfter(s, o.log, Address(r), k) && Onward(s, e, o, r, reports, n)
    requires r.way.Interrupt? && Fits(r, |o.mem|) && n < k + Limit(s, o, r, k)
    ensures Inside(e) && Onward(s, Service(s, e), o, r, reports, n + 1)
  {
    var q :| Running(s, e, o, r, q) && Served(q) == n;
    var _, _ := NextInterrupt(s, e, o, r, q, k);
  }

  lemma ServeWhileRunning(s: Slave, d: Driver, o: Outcome, r: Request, p: Position, k: nat, i: nat)
    returns (e: Driver, q: Position)
    requires Running(s, d, o, r, p) && AckAfter(s, o.log, Address(r), k)
    requires Served(p) + i <= k + Limit(s, o, r, k)
    ensures e == Serve(s, d, i) && Running(s, e, o, r, q) && Served(q) == Served(p) + i
    ensures e.reports == d.reports
  {
    var inv := (f: Driver, m: nat) => Onward(s, f, o, r, d.reports, m);
    forall f: Driver, m: nat | inv(f, m) && m < Served(p) + i
      ensures Inside(f) && inv(Service(s, f), m + 1)
    {
      OnwardKeeps(s, f, o, r, k, d.reports, m);
    }
    ServeKeeps(s, d, i, Served(p) + i, inv);
    e := Serve(s, d, i);
    q :| Running(s, e, o, r, q) && Served(q) == Served(p) + i;
  }

  lemma {:induction false} ServeSplits(s: Slave, d: Driver, i: nat)
    ensures Serve(s, d, i + 1) == Serve(s, Serve(s, d, i), 1)
    decreases i
  {
    if i > 0 && Inside(d) {
      ServeSplits(s, Service(s, d), i - 1);
    }
  }

  lemma {:induction false} ServeWhenReady(s: Slave, d: Driver, i: nat)
    requires d.state.STATE_READY?
    ensures Serve(s, d, i) == d.(iacks := d.iacks + i)
    decreases i
  {
    if i > 0 {
      ServeWhenReady(s, Service(s, d), i - 1);
    }
  }

  lemma {:induction false} ServeAdds(s: Slave, d: Driver, i: nat, j: nat)
    ensures Serve(s, d, i + j) == Serve(s, Serve(s, d, i), j)
    decreases i
  {
    if i > 0 && Inside(d) {
      ServeAdds(s, Service(s, d), i - 1, j);
    } else if i > 0 {
      assert Serve(s, d, i) == d;
    }
  }

  /** The interrupt after the last data command's completes the transfer. */
  lemma LastInterrupt(s: Slave, d: Driver, o: Outcome, r: Request, k: nat) returns (f: Driver)
    requires Running(s, d, o, r, Asking(0)) && AckAfter(s, o.log, Address(r), k)
    ensures f == Serve(s, d, k + Limit(s, o, r, k) + 1)
    ensures Finished(s, f, o, r, k) && f.reports == d.reports + [r.dir]
  {
    var last := k + Limit(s, o, r, k);
    var e, q := ServeWhileRunning(s, d, o, r, Asking(0), k, last);
    ServedAtMost(s, e, o, r, q, k);
    f, q := OneInterrupt(s, e, o, r, q);
    ServeSplits(s, d, last);
    assert Serve(s, e, 1) == Serve(s, f, 0);
  }

  /** Further interrupts are acknowledged and change nothing else. */
  lemma StaysFinished(s: Slave, d: Driver, o: Outcome, r: Request, k: nat, i: nat)
    requires Finished(s, d, o, r, k)
    ensures Finished(s, Serve(s, d, i), o, r, k) && Serve(s, d, i).reports == d.reports
  {
    ServeWhenReady(s, d, i);
  }

  /** A slave that refuses its address k times and then takes it is served in exactly
    * k + m + 1 interrupts, m being the data bytes up to the last or the first refused one:
    * before that the transfer is under way and unreported, from then on it is complete and
    * reported once. */
  lemma CompletionTime(s: Slave, d: Driver, r: Request, k: nat, i: nat)
    requires d.state.STATE_READY? && d.ctr == EN && r.way.Interrupt? && Fits(r, |d.mem|)
    requires AckAfter(s, d.log, Address(r), k)
    ensures var at := k + Limit(s, Now(d), r, k) + 1;
      if i < at then
        Busy(Serve(s, Start(d, r), i), r) && Serve(s, Start(d, r), i).reports == d.reports
      else
        && Finished(s, Serve(s, Start(d, r), i), Now(d), r, k)
        && Serve(s, Start(d, r), i).reports == d.reports + [r.dir]
  {
    var o, e := Now(d), Start(d, r);
    var at := k + Limit(s, o, r, k) + 1;
    StartRuns(s, d, r);
    if i < at {
      var _, _ := ServeWhileRunning(s, e, o, r, Asking(0), k, i);
    } else {
      var f := LastInterrupt(s, e, o, r, k);
      ServeAdds(s, e, at, i - at);
      StaysFinished(s, f, o, r, k, i - at);
    }
  }

  /** A slave that never takes its address is asked once more by every interrupt, for ever. */
  lemma {:induction false} NeverAcknowledged(s: Slave, d: Driver, o: Outcome, r: Request, a: nat, i: nat)
    requires Running(s, d, o, r, Asking(a))
    requires forall j :: 1 <= j ==> s(o.log + Repeat(Address(r), j)).nack
    ensures Running(s, Serve(s, d, i), o, r, Asking(a + i))
    decreases i
  {
    if i > 0 {
      AskAgain(s, d, o, r, a);
      NeverAcknowledged(s, Service(s, d), o, r, a + 1, i - 1);
    }
  }

  // ---- The blocking forms, command by command ----

  function Twin(r: Request): Request {
    r.(way := Blocking)
  }

  /** Everything after the acknowledged address. */
  function Tail(r: Request, mem: seq<bv8>): seq<Command>
    requires Fits(r, |mem|)
  {
    Data(r, mem) + if r.dir.Rx? then [Command(ReadAddress(r.dev), STO)] else []
  }

  /** The history once the blocking form, begun after `l`, has issued `i` commands (or all). */
  function BlockingLog(s: Slave, l: seq<Command>, r: Request, mem: seq<bv8>, i: nat): seq<Command>
    requires Fits(r, |mem|)
    decreases i
  {
    if i == 0 then l
    else
      var l' := l + [Address(r)];
      if s(l').nack then BlockingLog(s, l', r, mem, i - 1)
      else l' + Tail(r, mem)[..if i - 1 < |Tail(r, mem)| then i - 1 else |Tail(r, mem)|]
  }

  lemma {:induction false} BlockingRefused(s: Slave, l: seq<Command>, r: Request, mem: seq<bv8>, a: nat, i: nat)
    requires Fits(r, |mem|)
    requires forall j :: 1 <= j <= a ==> s(l + Repeat(Address(r), j)).nack
    ensures BlockingLog(s, l, r, mem, a + i) == BlockingLog(s, l + Repeat(Address(r), a), r, mem, i)
    decreases a
  {
    var c := Address(r);
    if a == 0 {
      assert l + Repeat(c, 0) == l;
    } else {
      var l' := l + [c];
      assert l' == l + Repeat(c, 1);
      forall j | 1 <= j <= a - 1
        ensures s(l' + Repeat(c, j)).nack
      {
        assert l' + Repeat(c, j) == l + Repeat(c, j + 1);
      }
      BlockingRefused(s, l', r, mem, a - 1, i);
      assert l' + Repeat(c, a - 1) == l + Repeat(c, a);
    }
  }

  lemma BlockingTaken(s: Slave, o: Outcome, r: Request, k: nat, m: nat)
    requires Fits(r, |o.mem|) && AckAfter(s, o.log, Address(r), k) && m <= |Tail(r, o.mem)|
    ensures BlockingLog(s, o.log, r, o.mem, k + 1 + m) == Addressed(o, r, k) + Tail(r, o.mem)[..m]
  {
    BlockingRefused(s, o.log, r, o.mem, k, m + 1);
    RepeatMore(o.log, Address(r), k);
  }

  lemma SameData(r: Request, mem: seq<bv8>)
    requires r.size != 0 && Fits(r, |mem|)
    ensures Data(Twin(r), mem) == Data(r, mem)
  {
  }

  lemma LockstepAsking(s: Slave, o: Outcome, r: Request, a: nat)
    requires r.size != 0 && Fits(r, |o.mem|)
    requires forall i :: 1 <= i <= a ==> s(o.log + Repeat(Address(r), i)).nack
    ensures BlockingLog(s, o.log, Twin(r), o.mem, a + 1) == o.log + Repeat(Address(r), a + 1)
  {
    var c, l := Address(r), o.log + Repeat(Address(r), a);
    assert Address(Twin(r)) == c;
    BlockingRefused(s, o.log, Twin(r), o.mem, a, 1);
    RepeatMore(o.log, c, a);
    assert l + [c] + Tail(Twin(r), o.mem)[..0] == l + [c];
  }

  lemma LockstepMoving(s: Slave, o: Outcome, r: Request, k: nat, j: nat)
    requires r.way.Interrupt? && r.size != 0 && Fits(r, |o.mem|) && AckAfter(s, o.log, Address(r), k)
    requires j <= Cells(r)
    ensures BlockingLog(s, o.log, Twin(r), o.mem, k + j + 1) == Addressed(o, r, k) + Data(r, o.mem)[..j]
  {
    SameData(r, o.mem);
    assert Address(Twin(r)) == Address(r);
    BlockingTaken(s, o, Twin(r), k, j);
    assert Tail(Twin(r), o.mem)[..j] == Data(r, o.mem)[..j];
  }

  /** In lockstep: while an interrupt transfer runs, after i interrupts the bus has seen exactly
    * the first i + 1 commands of the blocking form, whatever the slave answers. */
  lemma Lockstep(s: Slave, d: Driver, o: Outcome, r: Request, p: Position)
    requires Running(s, d, o, r, p) && r.size != 0
    ensures d.log == BlockingLog(s, o.log, Twin(r), o.mem, Served(p) + 1)
  {
    match p
    case Asking(a) => LockstepAsking(s, o, r, a);
    case Moving(k, j) => LockstepMoving(s, o, r, k, j);
  }

  lemma BlockingWhole(s: Slave, o: Outcome, r: Request, k: nat)
    requires r.way.Blocking? && Fits(r, |o.mem|) && AckAfter(s, o.log, Address(r), k)
    ensures Whole(s, o, r, k).log == BlockingLog(s, o.log, r, o.mem, k + 1 + |Tail(r, o.mem)|)
  {
    BlockingTaken(s, o, r, k, |Tail(r, o.mem)|);
    assert Tail(r, o.mem)[..|Tail(r, o.mem)|] == Tail(r, o.mem);
    assert Data(r, o.mem)[..|Data(r, o.mem)|] == Data(r, o.mem);
  }

  /** At completion the bus has seen the same number of the blocking form's commands as the
    * transfer issued: of a receive, all of them; of a transmit, up to the last byte sent. */
  lemma LockstepAtCompletion(s: Slave, d: Driver, o: Outcome, r: Request, k: nat)
    requires r.way.Interrupt? && r.size != 0 && Finished(s, d, o, r, k)
    ensures var m := Limit(s, o, r, k) + if r.dir.Rx? then 1 else 0;
      d.log == BlockingLog(s, o.log, Twin(r), o.mem, k + 1 + m)
  {
    if r.dir.Rx? {
      SameData(r, o.mem);
      ReceiveReachesAll(s, Addressed(o, r, k), r, o.mem);
      BlockingWhole(s, o, Twin(r), k);
    } else {
      LockstepMoving(s, o, r, k, Limit(s, o, r, k));
    }
  }

  /** No data byte before the last one is refused. */
  ghost predicate DataTaken(s: Slave, o: Outcome, r: Request, k: nat)
    requires Fits(r, |o.mem|)
  {
    r.dir.Tx? ==> forall i :: 1 <= i < Cells(r) ==> !s(Addressed(o, r, k) + Data(r, o.mem)[..i]).nack
  }

  lemma LimitIsAll(s: Slave, o: Outcome, r: Request, k: nat)
    requires r.way.Interrupt? && Fits(r, |o.mem|)
    ensures Limit(s, o, r, k) == Cells(r) <==> DataTaken(s, o, r, k)
  {
    var b, cs, m := Addressed(o, r, k), Data(r, o.mem), Limit(s, o, r, k);
    if r.dir.Rx? {
      ReceiveReachesAll(s, b, r, o.mem);
    } else {
      forall i | 1 <= i <= |cs|
        ensures Nacked(s, b + cs[..i]) == s(b + cs[..i]).nack
      {
        assert b + cs[..i] == (b + cs[..i - 1]) + [cs[i - 1]];
        AnswerToWrite(s, b + cs[..i - 1], cs[i - 1]);
      }
    }
  }

  /** The whole interrupt transfer and the whole blocking one put the same commands on the bus
    * exactly when Size is not 0 and no data byte before the last is refused; then they also
    * leave the same memory, having stored to the same cells in the same order. */
  lemma SameAsBlocking(s: Slave, o: Outcome, r: Request, k: nat)
    requires r.way.Interrupt? && Fits(r, |o.mem|) && AckAfter(s, o.log, Address(r), k)
    ensures Whole(s, o, r, k).log == Whole(s, o, Twin(r), k).log <==> r.size != 0 && DataTaken(s, o, r, k)
    ensures r.size != 0 && DataTaken(s, o, r, k) ==> Whole(s, o, r, k) == Whole(s, o, Twin(r), k)
  {
    LimitIsAll(s, o, r, k);
    if r.size != 0 {
      SameData(r, o.mem);
    }
  }

  /** Whatever the slave answers, a whole interrupt transfer of Size > 0 puts a prefix of the
    * blocking form's commands on the bus, and on receive all of them. */
  lemma PrefixOfBlocking(s: Slave, o: Outcome, r: Request, k: nat)
    requires r.way.Interrupt? && r.size != 0 && Fits(r, |o.mem|)
    ensures Whole(s, o, r, k).log <= Whole(s, o, Twin(r), k).log
    ensures r.dir.Rx? ==> Whole(s, o, r, k) == Whole(s, o, Twin(r), k)
  {
    SameData(r, o.mem);
    if r.dir.Rx? {
      ReceiveReachesAll(s, Addressed(o, r, k), r, o.mem);
    } else {
      var cs, m := Data(r, o.mem), Limit(s, o, r, k);
      assert cs[..|cs|] == cs[..m] + cs[m..];
    }
  }
}
