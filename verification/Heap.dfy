/** The bump allocator _sbrk of uart/core/src/main.c, on 32-bit addresses. */
module Heap {

  const ADDRESSES: nat := 0x1_0000_0000

  /** Result of one call: the start of the new block, or the error value. */
  datatype Result = Block(start: nat) | Failure

  /** heap_end + incr as the pointer arithmetic gives it. */
  function Moved(heapEnd: nat, incr: int): (a: nat)
    ensures a < ADDRESSES
  {
    (heapEnd + incr) % 0x1_0000_0000
  }

  function Call(heapEnd: nat, limit: nat, incr: int): (Result, nat) {
    if Moved(heapEnd, incr) > limit then (Failure, heapEnd) else (Block(heapEnd), Moved(heapEnd, incr))
  }

  class Allocator {
    var heapEnd: nat
    const stackBottom: nat

    constructor (end: nat, stackBottom: nat)
      ensures heapEnd == end && this.stackBottom == stackBottom
    {
      heapEnd := end;
      this.stackBottom := stackBottom;
    }

    method Sbrk(incr: int) returns (r: Result)
      modifies this
      ensures (r, heapEnd) == Call(old(heapEnd), stackBottom, incr)
      ensures var sum := (old(heapEnd) + incr) % 0x1_0000_0000;
        if sum > stackBottom then r == Failure && heapEnd == old(heapEnd)
        else r == Block(old(heapEnd)) && heapEnd == sum
    {
      var prevHeapEnd := heapEnd;
      if Moved(heapEnd, incr) > stackBottom {
        return Failure;
      }
      heapEnd := Moved(heapEnd, incr);
      return Block(prevHeapEnd);
    }

    /** A sequence of calls, in order. */
    method Calls(incrs: seq<int>) returns (rs: seq<Result>)
      modifies this
      ensures rs == Results(old(heapEnd), stackBottom, incrs)
      ensures heapEnd == EndAfter(old(heapEnd), stackBottom, incrs)
    {
      rs := [];
      for i := 0 to |incrs|
        invariant rs == Results(old(heapEnd), stackBottom, incrs[..i])
        invariant heapEnd == EndAfter(old(heapEnd), stackBottom, incrs[..i])
      {
        assert incrs[..i + 1][..i] == incrs[..i];
        var r := Sbrk(incrs[i]);
        rs := rs + [r];
      }
      assert incrs[..|incrs|] == incrs;
    }
  }

  function EndAfter(start: nat, limit: nat, incrs: seq<int>): nat
    decreases |incrs|
  {
    if incrs == [] then start
    else Call(EndAfter(start, limit, incrs[..|incrs| - 1]), limit, incrs[|incrs| - 1]).1
  }

  function Results(start: nat, limit: nat, incrs: seq<int>): (rs: seq<Result>)
    ensures |rs| == |incrs|
    decreases |incrs|
  {
    if incrs == [] then []
    else
      Results(start, limit, incrs[..|incrs| - 1])
      + [Call(EndAfter(start, limit, incrs[..|incrs| - 1]), limit, incrs[|incrs| - 1]).0]
  }

  /** The pointer sum stays in the address range, or is refused wherever it comes to lie. */
  predicate NoWrap(heapEnd: nat, limit: nat, incr: int) {
    0 <= heapEnd + incr && (heapEnd + incr < ADDRESSES || heapEnd + incr - ADDRESSES > limit)
  }

  /** The call answers by the true sum. */
  predicate Answers(heapEnd: nat, limit: nat, incr: int) {
    if heapEnd + incr > limit then Call(heapEnd, limit, incr) == (Failure, heapEnd)
    else
      && Call(heapEnd, limit, incr).0 == Block(heapEnd)
      && Call(heapEnd, limit, incr).1 as int == heapEnd + incr
  }

  /** One call answers by the true sum exactly when the sum does not wrap, or wraps and is refused
    * anyway: a larger request wraps and succeeds, and so may one that frees more than there is. */
  lemma WrapIsAccepted(heapEnd: nat, limit: nat, incr: int)
    requires heapEnd <= limit < ADDRESSES && -0x8000_0000 <= incr < 0x8000_0000
    ensures Answers(heapEnd, limit, incr) <==> NoWrap(heapEnd, limit, incr)
  {
  }

  /** The values of a ptrdiff_t. */
  predicate Typed(incrs: seq<int>) {
    forall i :: 0 <= i < |incrs| ==> -0x8000_0000 <= incrs[i] < 0x8000_0000
  }

  /** No call of a sequence wraps (and succeeds). */
  predicate Unwrapped(start: nat, limit: nat, incrs: seq<int>) {
    forall i :: 0 <= i < |incrs| ==> NoWrap(EndAfter(start, limit, incrs[..i]), limit, incrs[i])
  }

  /** What requests i to j - 1 add to the heap, those that fail nothing. */
  function Net(start: nat, limit: nat, incrs: seq<int>, i: nat, j: nat): int
    requires i <= j <= |incrs|
    decreases j
  {
    if i == j then 0
    else
      Net(start, limit, incrs, i, j - 1)
      + if Results(start, limit, incrs)[j - 1].Block? then incrs[j - 1] else 0
  }

  lemma {:induction false} ResultAt(start: nat, limit: nat, incrs: seq<int>, i: nat)
    requires i < |incrs|
    ensures Results(start, limit, incrs)[i] == Call(EndAfter(start, limit, incrs[..i]), limit, incrs[i]).0
    ensures EndAfter(start, limit, incrs[..i + 1]) == Call(EndAfter(start, limit, incrs[..i]), limit, incrs[i]).1
    decreases |incrs|
  {
    var before := incrs[..|incrs| - 1];
    assert incrs[..i + 1][..i] == incrs[..i];
    if i < |before| {
      ResultAt(start, limit, before, i);
      assert before[..i] == incrs[..i];
    }
  }

  lemma {:induction false} EndBelowLimit(start: nat, limit: nat, incrs: seq<int>, i: nat)
    requires i <= |incrs| && start <= limit
    ensures EndAfter(start, limit, incrs[..i]) <= limit
    decreases i
  {
    if i > 0 {
      EndBelowLimit(start, limit, incrs, i - 1);
      ResultAt(start, limit, incrs, i - 1);
    }
  }

  /** Every call of a sequence answers by the true sum exactly when none wraps (and succeeds). */
  lemma AllAnswer(start: nat, limit: nat, incrs: seq<int>)
    requires start <= limit < ADDRESSES && Typed(incrs)
    ensures (forall i :: 0 <= i < |incrs| ==> Answers(EndAfter(start, limit, incrs[..i]), limit, incrs[i]))
      <==> Unwrapped(start, limit, incrs)
  {
    forall i | 0 <= i < |incrs|
      ensures Answers(EndAfter(start, limit, incrs[..i]), limit, incrs[i])
        <==> NoWrap(EndAfter(start, limit, incrs[..i]), limit, incrs[i])
    {
      EndBelowLimit(start, limit, incrs, i);
      WrapIsAccepted(EndAfter(start, limit, incrs[..i]), limit, incrs[i]);
    }
  }

  lemma EndStep(start: nat, limit: nat, incrs: seq<int>, i: nat)
    requires i < |incrs| && start <= limit < ADDRESSES && Typed(incrs) && Unwrapped(start, limit, incrs)
    ensures EndAfter(start, limit, incrs[..i]) <= limit
    ensures Answers(EndAfter(start, limit, incrs[..i]), limit, incrs[i])
    ensures EndAfter(start, limit, incrs[..i + 1])
      == EndAfter(start, limit, incrs[..i]) + if Results(start, limit, incrs)[i].Block? then incrs[i] else 0
  {
    EndBelowLimit(start, limit, incrs, i);
    ResultAt(start, limit, incrs, i);
    WrapIsAccepted(EndAfter(start, limit, incrs[..i]), limit, incrs[i]);
  }

  lemma NetMore(start: nat, limit: nat, incrs: seq<int>, i: nat, j: nat) returns (before: nat)
    requires i < j <= |incrs| && start <= limit < ADDRESSES && Typed(incrs) && Unwrapped(start, limit, incrs)
    ensures before == EndAfter(start, limit, incrs[..j - 1])
    ensures EndAfter(start, limit, incrs[..j])
      == before + Net(start, limit, incrs, i, j) - Net(start, limit, incrs, i, j - 1)
  {
    before := EndAfter(start, limit, incrs[..j - 1]);
    EndStep(start, limit, incrs, j - 1);
  }

  /** The heap ends where the granted requests put it. */
  lemma {:induction false} NetMoves(start: nat, limit: nat, incrs: seq<int>, i: nat, j: nat)
    returns (from: nat, to: nat)
    requires i <= j <= |incrs| && start <= limit < ADDRESSES && Typed(incrs) && Unwrapped(start, limit, incrs)
    ensures from == EndAfter(start, limit, incrs[..i]) && to == EndAfter(start, limit, incrs[..j])
    ensures to == from + Net(start, limit, incrs, i, j)
    decreases j
  {
    if i == j {
      from := EndAfter(start, limit, incrs[..i]);
      to := from;
    } else {
      from, to := NetMoves(start, limit, incrs, i, j - 1);
      var before := NetMore(start, limit, incrs, i, j);
      to := EndAfter(start, limit, incrs[..j]);
    }
  }

  /** Over any sequence of calls that do not wrap, whatever their signs: a request fails exactly when
    * it does not fit below the stack, and then changes nothing; else its block starts where the
    * heap ended and the heap ends after it. */
  lemma BlocksAdjacent(start: nat, limit: nat, incrs: seq<int>, i: nat)
    requires start <= limit < ADDRESSES && Typed(incrs) && Unwrapped(start, limit, incrs) && i < |incrs|
    ensures var r, end := Results(start, limit, incrs)[i], EndAfter(start, limit, incrs[..i]);
      && end <= limit
      && (r.Failure? <==> end + incrs[i] > limit)
      && (r.Block? ==> r.start == end)
      && EndAfter(start, limit, incrs[..i + 1]) == if r.Block? then r.start + incrs[i] else end
  {
    EndStep(start, limit, incrs, i);
    ResultAt(start, limit, incrs, i);
  }

  /** Of two granted requests, the later block starts beyond the earlier one exactly when the
    * requests between them do not give back more than they take. */
  lemma BlocksInOrder(start: nat, limit: nat, incrs: seq<int>, i: nat, j: nat)
    requires start <= limit < ADDRESSES && Typed(incrs) && Unwrapped(start, limit, incrs) && i < j < |incrs|
    requires Results(start, limit, incrs)[i].Block? && Results(start, limit, incrs)[j].Block?
    ensures var rs := Results(start, limit, incrs);
      rs[i].start + incrs[i] <= rs[j].start <==> 0 <= Net(start, limit, incrs, i + 1, j)
  {
    BlocksAdjacent(start, limit, incrs, i);
    BlocksAdjacent(start, limit, incrs, j);
    var _, _ := NetMoves(start, limit, incrs, i + 1, j);
  }

  lemma {:induction false} NetOfGrowth(start: nat, limit: nat, incrs: seq<int>, i: nat, j: nat)
    requires i <= j <= |incrs| && forall k :: 0 <= k < |incrs| ==> incrs[k] >= 0
    ensures Net(start, limit, incrs, i, j) >= 0
    decreases j
  {
    if i < j {
      NetOfGrowth(start, limit, incrs, i, j - 1);
    }
  }

  /** If nothing is given back, all blocks lie between the start of the heap and the stack, in the
    * order of the requests, and no two overlap. */
  lemma BlocksDisjoint(start: nat, limit: nat, incrs: seq<int>, i: nat, j: nat)
    requires start <= limit < ADDRESSES && Typed(incrs) && Unwrapped(start, limit, incrs) && i < j < |incrs|
    requires forall k :: 0 <= k < |incrs| ==> incrs[k] >= 0
    requires Results(start, limit, incrs)[i].Block? && Results(start, limit, incrs)[j].Block?
    ensures var rs := Results(start, limit, incrs);
      start <= rs[i].start && rs[i].start + incrs[i] <= rs[j].start && rs[j].start + incrs[j] <= limit
  {
    BlocksAdjacent(start, limit, incrs, i);
    BlocksAdjacent(start, limit, incrs, j);
    BlocksInOrder(start, limit, incrs, i, j);
    NetOfGrowth(start, limit, incrs, i + 1, j);
    NetOfGrowth(start, limit, incrs, 0, i);
    var _, _ := NetMoves(start, limit, incrs, 0, i);
  }

  /** On this board data memory starts at 0x9000_0000, so the wrap can be reached. */
  lemma WrapExample()
    ensures Call(0x9000_0100, 0x9000_0800, 0x7FFF_FFFF).0 == Block(0x9000_0100)
    ensures 0x9000_0100 + 0x7FFF_FFFF > 0x9000_0800
  {
    assert Moved(0x9000_0100, 0x7FFF_FFFF) == 0x1000_00FF;
  }
}
