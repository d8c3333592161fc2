/**
 * The packet utilities of the older driver, bin/weepwr/gem_driver.py: the
 * `reduce`-based `unpack`, `extract_seq`, and the one-deep history wrapper
 * `GenWithDelay` that pairs each packet with the one before it.
 */
module GemUtil {
  import opened Wrappers
  import opened Bytes
  import opened Packets

  /**
   * reduce(lambda s, x: s + x[1]*(1<<(8*x[0])), enumerate(a), s) from
   * position i on: each byte is shifted left by eight bits per position.
   */
  function Reduce(a: seq<byte>, i: nat, s: int): int
    requires i <= |a|
    decreases |a| - i
  {
    if i == |a| then s else Reduce(a, i + 1, s + a[i] * Pow2(8 * i))
  }

  /** Folding from position i adds the tail's little-endian value, scaled by 256^i. */
  lemma {:induction false} ReduceSum(a: seq<byte>, i: nat, s: int)
    requires i <= |a|
    ensures Reduce(a, i, s) == s + Pow256(i) * LittleEndian(a[i..])
    decreases |a| - i
  {
    if i < |a| {
      var step := s + a[i] * Pow2(8 * i);
      ReduceSum(a, i + 1, step);
      Pow2Bytes(i);
      assert a[i..][1..] == a[i + 1..];
      var rest := LittleEndian(a[i + 1..]);
      assert LittleEndian(a[i..]) == a[i] + 256 * rest;
      assert Pow256(i + 1) == 256 * Pow256(i);
      ShiftDistributes(Pow256(i), a[i], rest);
    }
  }

  lemma ShiftDistributes(p: int, x: int, y: int)
    ensures p * (x + 256 * y) == x * p + (256 * p) * y
  {
  }

  /** unpack: the same little-endian value as brultech.py's shift-and-add loop. */
  function Unpack(a: seq<byte>): (s: nat)
    ensures s == LittleEndian(a)
  {
    ReduceSum(a, 0, 0);
    assert a[0..] == a;
    Reduce(a, 0, 0)
  }

  /** extract_seq: fills the dict tag % 1 .. tag % n one field at a time. */
  method ExtractSeq(buf: seq<byte>, n: nat, nbyte: nat, tag: Template) returns (results: Packet)
    ensures results == SeqFields(buf, n, nbyte, tag)
  {
    results := map[];
    for i := 0 to n
      invariant results == SeqFields(buf, i, nbyte, tag)
    {
      OffsetIsProduct(i, nbyte);
      var lo := i * nbyte;
      var x := Unpack(Slice(buf, lo, lo + nbyte));
      results := results[Indexed(tag, i + 1) := Int(x)];
      SeqFieldsStep(buf, i, nbyte, tag, x);
    }
  }

  /** What GenWithDelay yields over the items xs: func(x_i, x_{i+1}) for each neighbouring pair. */
  function Pairs<T, R>(xs: seq<T>, func: (T, T) -> R): (ps: seq<R>)
    ensures |ps| == if |xs| == 0 then 0 else |xs| - 1
    ensures forall i :: 0 <= i < |ps| ==> ps[i] == func(xs[i], xs[i + 1])
  {
    if |xs| < 2 then [] else Pairs(xs[..|xs| - 1], func) + [func(xs[|xs| - 2], xs[|xs| - 1])]
  }

  /** One more item extends the pairs by one: the last item paired with the new one. */
  lemma PairsSnoc<T, R>(xs: seq<T>, x: T, func: (T, T) -> R)
    requires |xs| >= 1
    ensures Pairs(xs + [x], func) == Pairs(xs, func) + [func(xs[|xs| - 1], x)]
  {
    assert (xs + [x])[..|xs|] == xs;
  }

  /** The doctest of GenWithDelay: pairing range(5) gives (0,1), (1,2), (2,3), (3,4). */
  lemma PairsExample()
    ensures Pairs([0, 1, 2, 3, 4], (p: int, q: int) => (p, q)) == [(0, 1), (1, 2), (2, 3), (3, 4)]
  {
    var ps := Pairs([0, 1, 2, 3, 4], (p: int, q: int) => (p, q));
    assert |ps| == 4;
    assert ps[0] == (0, 1) && ps[1] == (1, 2) && ps[2] == (2, 3) && ps[3] == (3, 4);
  }

  /**
   * The item GenWithDelay holds in `previous` after reading the items xs: the
   * last one read, except that a call of func that raised keeps the older one,
   * because `retval, self.previous = self.func(self.previous, now), now`
   * evaluates func before it assigns.
   */
  function Held<T, R, E>(xs: seq<T>, func: (T, T) -> Result<R, E>): (h: Option<T>)
    ensures h.Some? <==> |xs| > 0
  {
    if |xs| == 0 then None
    else
      var h := Held(xs[..|xs| - 1], func);
      if h.None? || func(h.value, xs[|xs| - 1]).Success? then Some(xs[|xs| - 1]) else h
  }

  /** What func returned or raised, call by call, while GenWithDelay read the items xs. */
  function Outs<T, R, E>(xs: seq<T>, func: (T, T) -> Result<R, E>): (os: seq<Result<R, E>>)
    ensures |os| == if |xs| == 0 then 0 else |xs| - 1
  {
    if |xs| < 2 then []
    else
      var init := xs[..|xs| - 1];
      Outs(init, func) + [func(Held(init, func).value, xs[|xs| - 1])]
  }

  /** One more item: func is called on the held item and the new one, which is held next only if func returned. */
  lemma OutsSnoc<T, R, E>(xs: seq<T>, x: T, func: (T, T) -> Result<R, E>)
    requires |xs| >= 1
    ensures Outs(xs + [x], func) == Outs(xs, func) + [func(Held(xs, func).value, x)]
    ensures Held(xs + [x], func) == if func(Held(xs, func).value, x).Success? then Some(x) else Held(xs, func)
  {
    assert (xs + [x])[..|xs|] == xs;
  }

  /** When no call of func raises, GenWithDelay hands out exactly func of each neighbouring pair. */
  lemma {:induction false} OutsWithoutFailures<T, R, E>(xs: seq<T>, func: (T, T) -> Result<R, E>)
    requires forall i :: 0 <= i < |xs| - 1 ==> func(xs[i], xs[i + 1]).Success?
    ensures Outs(xs, func) == Pairs(xs, func)
    ensures |xs| > 0 ==> Held(xs, func) == Some(xs[|xs| - 1])
  {
    if |xs| > 0 {
      var init := xs[..|xs| - 1];
      forall i | 0 <= i < |init| - 1
        ensures func(init[i], init[i + 1]).Success?
      {
        assert init[i] == xs[i] && init[i + 1] == xs[i + 1];
      }
      OutsWithoutFailures(init, func);
      if |xs| >= 2 {
        assert func(xs[|xs| - 2], xs[|xs| - 1]).Success?;
      }
    }
  }

  /** Reading further items only appends to what func has returned or raised so far. */
  lemma {:induction false} OutsPrefix<T, R, E>(xs: seq<T>, m: nat, func: (T, T) -> Result<R, E>)
    requires m <= |xs|
    ensures Outs(xs[..m], func) <= Outs(xs, func)
    decreases |xs|
  {
    if m < |xs| {
      var init := xs[..|xs| - 1];
      assert init[..m] == xs[..m];
      OutsPrefix(init, m, func);
    } else {
      assert xs[..m] == xs;
    }
  }

  /**
   * A counter reset in the middle: the item that made func raise is dropped,
   * and the next item is paired with the one before it (7 with 5, not with 3).
   */
  lemma FailureKeepsPrevious()
    ensures var func := (p: int, q: int) => if q < p then Failure(q) else Success(q - p);
      Outs([0, 5, 3, 7], func) == [Success(5), Failure(3), Success(2)]
  {
    var func := (p: int, q: int) => if q < p then Failure(q) else Success(q - p);
    var xs := [0, 5, 3, 7];
    assert xs[..1] == [0] && xs[..2] == [0, 5] && xs[..3] == [0, 5, 3];
    assert Held([0], func) == Some(0);
    assert Held([0, 5], func) == Some(5);
    assert Held([0, 5, 3], func) == Some(5);
  }

  /** The index of the first failure in os from `from` on, if any. */
  function FirstFailure<R, E>(os: seq<Result<R, E>>, from: nat): (r: Option<nat>)
    requires from <= |os|
    ensures r.Some? ==> from <= r.value < |os| && os[r.value].Failure?
    ensures r.Some? ==> forall j :: from <= j < r.value ==> os[j].Success?
    ensures r.None? <==> forall j :: from <= j < |os| ==> os[j].Success?
    decreases |os| - from
  {
    if from == |os| then None
    else if os[from].Failure? then Some(from)
    else FirstFailure(os, from + 1)
  }

  /** What generator.next() gives once the items have run out: the generator's exception, or StopIteration (None). */
  function EndOf<R, E>(fault: Option<E>): (r: Option<Result<R, E>>)
    ensures r.None? <==> fault.None?
  {
    match fault
    case None => None
    case Some(e) => Some(Failure(e))
  }

  /**
   * GenWithDelay: a generator wrapper with a one-item history.  The wrapped
   * generator is the sequence `rest` of the items it has yet to produce,
   * followed by `fault`: the exception it raises after them, or None for
   * StopIteration.  A generator that has raised is finished, so afterwards it
   * stops.  A call of next() returns None for StopIteration, or what func
   * returned or raised, or the generator's exception.
   */
  class GenWithDelay<T, R, E> {
    var rest: seq<T>
    var fault: Option<E>
    const func: (T, T) -> Result<R, E>
    var startingUp: bool
    /** self.previous, which does not exist until the first item is read. */
    var previous: Option<T>
    /** The items taken from the wrapped generator so far, and what func returned or raised on them. */
    ghost var consumed: seq<T>
    ghost var yielded: seq<Result<R, E>>

    ghost predicate Valid()
      reads this
    {
      && (startingUp <==> consumed == [])
      && previous == Held(consumed, func)
      && yielded == Outs(consumed, func)
    }

    constructor (generator: seq<T>, fault: Option<E>, func: (T, T) -> Result<R, E>)
      ensures Valid()
      ensures rest == generator && this.fault == fault && this.func == func && startingUp
      ensures consumed == [] && yielded == []
    {
      rest := generator;
      this.fault := fault;
      this.func := func;
      startingUp := true;
      previous := None;
      consumed := [];
      yielded := [];
    }

    /**
     * next(): on the first call, read an item into `previous` and call itself
     * again; after that, read one item and return func(previous, item).  An
     * exception from the generator on the first read leaves starting_up set.
     */
    method Next() returns (r: Option<Result<R, E>>)
      requires Valid()
      modifies this
      ensures Valid()
      ensures consumed + rest == old(consumed + rest)
      ensures old(rest) == [] ==>
                && r == EndOf(old(fault)) && fault == None && rest == []
                && startingUp == old(startingUp) && previous == old(previous) && yielded == old(yielded)
      ensures old(startingUp) && |old(rest)| == 1 ==>
                && r == EndOf(old(fault)) && fault == None && rest == []
                && !startingUp && previous == Some(old(rest[0])) && yielded == old(yielded)
      ensures old(startingUp) && |old(rest)| >= 2 ==>
                && r == Some(func(old(rest[0]), old(rest[1])))
                && rest == old(rest[2..]) && fault == old(fault) && !startingUp
                && previous == Some(if r.value.Success? then old(rest[1]) else old(rest[0]))
                && yielded == old(yielded) + [r.value]
      ensures !old(startingUp) && old(rest) != [] ==>
                && r == Some(func(old(previous.value), old(rest[0])))
                && rest == old(rest[1..]) && fault == old(fault)
                && previous == (if r.value.Success? then Some(old(rest[0])) else old(previous))
                && yielded == old(yielded) + [r.value]
    {
      if startingUp {
        if rest == [] {
          r := EndOf(fault);
          fault := None;
          return;
        }
        previous := Some(rest[0]);
        consumed := consumed + [rest[0]];
        rest := rest[1..];
        startingUp := false;
      }
      r := Step();
    }

    /**
     * The call of next() once `previous` holds an item: one item in and
     * func(previous, item) out.  If func raises, the item read is lost and
     * `previous` keeps the older one.
     */
    method Step() returns (r: Option<Result<R, E>>)
      requires Valid() && !startingUp
      modifies this
      ensures Valid() && !startingUp
      ensures consumed + rest == old(consumed + rest)
      ensures old(rest) == [] ==>
                && r == EndOf(old(fault)) && fault == None && rest == []
                && previous == old(previous) && yielded == old(yielded)
      ensures old(rest) != [] ==>
                && r == Some(func(old(previous.value), old(rest[0])))
                && rest == old(rest[1..]) && fault == old(fault)
                && previous == (if r.value.Success? then Some(old(rest[0])) else old(previous))
                && yielded == old(yielded) + [r.value]
    {
      if rest == [] {
        r := EndOf(fault);
        fault := None;
        return;
      }
      var now := rest[0];
      rest := rest[1..];
      OutsSnoc(consumed, now, func);
      var retval := func(previous.value, now);
      if retval.Success? {
        previous := Some(now);
      }
      consumed := consumed + [now];
      yielded := yielded + [retval];
      r := Some(retval);
    }
  }

  /**
   * genLoopPackets: `for packet in GenWithDelay(generator, func): yield packet`.
   * It yields what func returns until the first call of func that raises, or
   * until the generator stops or raises, and that exception ends the loop.
   */
  method LoopPackets<T, R, E>(xs: seq<T>, fault: Option<E>, func: (T, T) -> Result<R, E>)
    returns (outs: seq<R>, raised: Option<E>)
    ensures var os := Outs(xs, func); var k := FirstFailure(os, 0);
      && (k.Some? ==> outs == Successes(os[..k.value]) && raised == Some(os[k.value].error))
      && (k.None? ==> outs == Successes(os) && raised == fault)
  {
    var g := new GenWithDelay(xs, fault, func);
    outs, raised := [], None;
    while true
      invariant g.Valid() && g.func == func
      invariant g.consumed + g.rest == xs
      invariant g.fault == fault
      invariant outs == Successes(g.yielded)
      invariant FirstFailure(g.yielded, 0).None?
      decreases |g.rest|
    {
      ghost var before := g.yielded;
      var r := g.Next();
      if r.None? {
        break;
      }
      match r.value {
        case Success(v) =>
          outs := outs + [v];
          SuccessesSnoc(before, r.value);
          FirstFailureSnoc(before, r.value);
        case Failure(e) =>
          raised := Some(e);
          if g.yielded == before {
            // the generator's own exception, after its last item
            assert g.consumed == xs;
          } else {
            // func raised on the item just read
            assert xs[..|g.consumed|] == g.consumed;
            FuncFailureFirst(xs, |g.consumed|, before, e, func);
          }
          return;
      }
    }
    assert g.consumed == xs;
  }

  lemma SuccessesSnoc<R, E>(s: seq<Result<R, E>>, x: Result<R, E>)
    requires x.Success?
    ensures Successes(s + [x]) == Successes(s) + [x.value]
  {
    assert (s + [x])[..|s|] == s;
  }

  lemma FirstFailureSnoc<R, E>(s: seq<Result<R, E>>, x: Result<R, E>)
    requires FirstFailure(s, 0).None? && x.Success?
    ensures FirstFailure(s + [x], 0).None?
  {
    assert forall j :: 0 <= j < |s| ==> (s + [x])[j] == s[j];
  }

  /**
   * When func first raises after reading the first m items, that is the first
   * failure among everything func would give on all of xs.
   */
  lemma FuncFailureFirst<T, R, E>(xs: seq<T>, m: nat, before: seq<Result<R, E>>, e: E, func: (T, T) -> Result<R, E>)
    requires m <= |xs| && Outs(xs[..m], func) == before + [Failure(e)] && FirstFailure(before, 0).None?
    ensures var os := Outs(xs, func);
      && FirstFailure(os, 0) == Some(|before|) && os[..|before|] == before && os[|before|] == Failure(e)
  {
    OutsPrefix(xs, m, func);
    var os, front := Outs(xs, func), before + [Failure(e)];
    assert os[..|front|] == front;
    assert os[..|before|] == before by {
      assert os[..|before|] == front[..|before|];
    }
    assert os[|before|] == front[|before|];
    FirstFailureAt(os, before, e);
  }

  /** os starts with the successes ys and then a failure: that failure is the first one. */
  lemma FirstFailureAt<R, E>(os: seq<Result<R, E>>, ys: seq<Result<R, E>>, e: E)
    requires |ys| < |os| && os[..|ys|] == ys && os[|ys|] == Failure(e) && FirstFailure(ys, 0).None?
    ensures FirstFailure(os, 0) == Some(|ys|)
  {
    assert forall j :: 0 <= j < |ys| ==> os[j] == ys[j];
  }
}
