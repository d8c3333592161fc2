/**
 * The retry loop of the older driver's GEM.gen_packets
 * (bin/weepwr/gem_driver.py): it fetches packets from the byte source
 * forever, yields each one, and counts consecutive I/O errors in `i_try`;
 * the error that makes the count reach max_tries is re-raised, earlier ones
 * are swallowed, and any error that is not a WeePwrIOError escapes at once.
 *
 * The source's behaviour is a run of fetch outcomes: each fetch either gives a
 * packet or raises.  The model consumes a finite run of them.
 */
module GemDriver {
  import opened Wrappers
  import opened Packets
  import opened Weepwr

  type Attempt = Result<Packet, GemError>

  /** A fetch that raised an error `except weepwr.WeePwrIOError` catches. */
  predicate IsIOFailure(r: Attempt)
  {
    r.Failure? && IsIOError(r.error)
  }

  /** The number of I/O errors at the end of a run of fetches, back to the last success or other error. */
  function Streak(s: seq<Attempt>): nat
  {
    if |s| == 0 then 0
    else if IsIOFailure(s[|s| - 1]) then Streak(s[..|s| - 1]) + 1
    else 0
  }

  /**
   * Fetch j ends the generator: it raised an error that is not an I/O error,
   * or the I/O error that makes maxTries in a row.
   */
  predicate Stops(a: seq<Attempt>, j: nat, maxTries: int)
    requires j < |a|
  {
    a[j].Failure? && (!IsIOError(a[j].error) || Streak(a[..j + 1]) >= maxTries)
  }

  /** The first fetch from `from` on that ends the generator, if any. */
  function FirstStop(a: seq<Attempt>, maxTries: int, from: nat): (r: Option<nat>)
    requires from <= |a|
    ensures r.Some? ==> from <= r.value < |a| && Stops(a, r.value, maxTries)
    ensures r.Some? ==> forall j: nat :: from <= j < r.value ==> !Stops(a, j, maxTries)
    ensures r.None? <==> forall j: nat :: from <= j < |a| ==> !Stops(a, j, maxTries)
    decreases |a| - from
  {
    if from == |a| then None
    else if Stops(a, from, maxTries) then Some(from)
    else FirstStop(a, maxTries, from + 1)
  }

  /**
   * gen_packets over the fetch outcomes `attempts`: the packets it yields and
   * the error it raises.  When the run ends without an error being raised,
   * the generator is still live and `raised` is None.  That None is not a
   * StopIteration (gen_packets never stops on its own), unlike the `fault`
   * None of `GemUtil.GenWithDelay`, so a finite run here is not a finished
   * generator there.
   */
  method GenPackets(attempts: seq<Attempt>, maxTries: int) returns (yielded: seq<Packet>, raised: Option<GemError>)
    ensures var stop := FirstStop(attempts, maxTries, 0);
      && (stop.Some? ==> raised == Some(attempts[stop.value].error) && yielded == Successes(attempts[..stop.value]))
      && (stop.None? ==> raised == None && yielded == Successes(attempts))
  {
    var iTry := 1;
    yielded := [];
    var i := 0;
    while i < |attempts|
      invariant 0 <= i <= |attempts|
      invariant iTry == Streak(attempts[..i]) + 1
      invariant yielded == Successes(attempts[..i])
      invariant forall j: nat :: j < i ==> !Stops(attempts, j, maxTries)
    {
      assert attempts[..i + 1][..i] == attempts[..i];
      match attempts[i] {
        case Success(packet) =>
          yielded := yielded + [packet];
          iTry := 1;
        case Failure(e) =>
          if !IsIOError(e) || iTry >= maxTries {
            assert Stops(attempts, i, maxTries);
            return yielded, Some(e);
          }
          iTry := iTry + 1;
      }
      i := i + 1;
    }
    assert attempts[..i] == attempts;
    raised := None;
  }

  /** A success ends the streak of I/O errors: the next error is try #1 again. */
  lemma SuccessResets(s: seq<Attempt>, p: Packet, e: GemError)
    requires IsIOError(e)
    ensures Streak(s + [Success(p)]) == 0
    ensures Streak(s + [Success(p), Failure(e)]) == 1
    ensures Successes(s + [Success(p)]) == Successes(s) + [p]
  {
    var t := s + [Success(p), Failure(e)];
    assert t[..|t| - 1] == s + [Success(p)];
    assert (s + [Success(p)])[..|s|] == s;
  }

  /** The streak at the end of a run is its longest suffix of I/O errors. */
  lemma {:induction false} StreakRun(s: seq<Attempt>)
    ensures Streak(s) <= |s|
    ensures forall j :: |s| - Streak(s) <= j < |s| ==> IsIOFailure(s[j])
    ensures Streak(s) < |s| ==> !IsIOFailure(s[|s| - Streak(s) - 1])
  {
    if |s| > 0 && IsIOFailure(s[|s| - 1]) {
      var init := s[..|s| - 1];
      StreakRun(init);
      forall j | |s| - Streak(s) <= j < |s|
        ensures IsIOFailure(s[j])
      {
        if j < |s| - 1 {
          assert s[j] == init[j];
        }
      }
    }
  }

  /**
   * An I/O error at fetch j is re-raised exactly when it closes a run of
   * maxTries consecutive I/O errors (for maxTries >= 1); otherwise it is
   * swallowed and the generator fetches again.
   */
  lemma GivesUpExactly(a: seq<Attempt>, maxTries: int, j: nat)
    requires 1 <= maxTries && j < |a| && IsIOFailure(a[j])
    ensures Stops(a, j, maxTries) <==> maxTries <= j + 1 && forall i :: j + 1 - maxTries <= i <= j ==> IsIOFailure(a[i])
  {
    var s := a[..j + 1];
    StreakRun(s);
    if Stops(a, j, maxTries) {
      forall i | j + 1 - maxTries <= i <= j
        ensures IsIOFailure(a[i])
      {
        assert a[i] == s[i];
      }
    }
  }

  /** maxTries I/O errors in a row end the generator at the latest with the last of them. */
  lemma GivesUpAfterMaxTries(a: seq<Attempt>, maxTries: int, j: nat)
    requires 1 <= maxTries <= j + 1 && j < |a|
    requires forall i :: j + 1 - maxTries <= i <= j ==> IsIOFailure(a[i])
    ensures FirstStop(a, maxTries, 0).Some? && FirstStop(a, maxTries, 0).value <= j
  {
    GivesUpExactly(a, maxTries, j);
  }

  /** An error that is not an I/O error ends the generator the first time it occurs. */
  lemma OtherErrorsPropagate(a: seq<Attempt>, maxTries: int, j: nat)
    requires j < |a| && a[j].Failure? && !IsIOError(a[j].error)
    requires forall i: nat :: i < j ==> !Stops(a, i, maxTries)
    ensures FirstStop(a, maxTries, 0) == Some(j)
  {
    assert Stops(a, j, maxTries);
  }

  /** Every packet yielded is one a fetch gave. */
  lemma {:induction false} SuccessesFromFetches(s: seq<Attempt>, p: Packet)
    requires p in Successes(s)
    ensures Success(p) in s
  {
    var init := s[..|s| - 1];
    if p in Successes(init) {
      SuccessesFromFetches(init, p);
      assert Success(p) in init;
      assert init <= s;
    } else {
      assert s[|s| - 1] == Success(p);
    }
  }
}
