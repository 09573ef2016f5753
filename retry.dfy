/** The retry loop of `Downloader.download`, apart from what one attempt
    does: up to `n` attempts, stopping at the first that does not raise; after
    each failed attempt but the last, a pause that starts at the first delay
    and doubles every time, slept only when positive. `attempt(s, k)` is the
    state that attempt `k` (counted from 0) leaves when it starts from `s`,
    and `failed(s)` says that the attempt that left `s` raised. */
module Retry {
  /** How the loop ends: the state the last attempt left, the number of
      attempts made, and the pauses slept between them. */
  datatype Ran<S> = Ran(last: S, attempts: nat, waits: seq<real>)

  /** The pause after failed attempt `k`: the first delay, doubled after
      every pause (`delay *= 2.0`). */
  function Pause(first: real, k: nat): (d: real)
    ensures first >= 0.0 ==> d >= 0.0
  {
    if k == 0 then first else Pause(first, k - 1) * 2.0
  }

  /** The pauses slept after a failed attempt with pause `delay`:
      `if delay > 0: time.sleep(delay)`. */
  function Slept(delay: real): (w: seq<real>)
    ensures delay > 0.0 <==> w == [delay]
    ensures delay <= 0.0 <==> w == []
  {
    if delay > 0.0 then [delay] else []
  }

  /** The attempts from number `k` on. */
  function Run<S>(st: S, attempt: (S, nat) -> S, failed: S -> bool, n: nat, first: real, k: nat): (r: Ran<S>)
    requires k < n
    ensures k < r.attempts <= n
    decreases n - k
  {
    var s := attempt(st, k);
    if !failed(s) || k + 1 == n then Ran(s, k + 1, [])
    else
      var r := Run(s, attempt, failed, n, first, k + 1);
      r.(waits := Slept(Pause(first, k)) + r.waits)
  }

  /** The loop state before attempt `k`: from state `st`, having slept
      `waits`, the remaining attempts end as `whole` does. */
  ghost predicate Remaining<S>(st: S, attempt: (S, nat) -> S, failed: S -> bool, n: nat, first: real, k: nat,
                               waits: seq<real>, whole: Ran<S>)
    requires k < n
  {
    var rest := Run(st, attempt, failed, n, first, k);
    rest.last == whole.last && rest.attempts == whole.attempts && waits + rest.waits == whole.waits
  }

  /** Before the first attempt nothing has been slept. */
  lemma RemainingAtStart<S>(st: S, attempt: (S, nat) -> S, failed: S -> bool, n: nat, first: real)
    requires 0 < n
    ensures Remaining(st, attempt, failed, n, first, 0, [], Run(st, attempt, failed, n, first, 0))
  {
    assert [] + Run(st, attempt, failed, n, first, 0).waits == Run(st, attempt, failed, n, first, 0).waits;
  }

  /** A failed attempt that is not the last keeps the loop state, with its
      pause slept. */
  lemma RemainingAfterFailure<S>(st: S, attempt: (S, nat) -> S, failed: S -> bool, n: nat, first: real, k: nat,
                                 waits: seq<real>, whole: Ran<S>)
    requires k < n && Remaining(st, attempt, failed, n, first, k, waits, whole)
    requires failed(attempt(st, k)) && k + 1 < n
    ensures Remaining(attempt(st, k), attempt, failed, n, first, k + 1, waits + Slept(Pause(first, k)), whole)
  {
    var next := Run(attempt(st, k), attempt, failed, n, first, k + 1);
    var pause := Slept(Pause(first, k));
    assert Run(st, attempt, failed, n, first, k).waits == pause + next.waits;
    assert (waits + pause) + next.waits == waits + (pause + next.waits);
  }

  /** The same step with the loop's variables after it: the state `st2` the
      attempt left, the count `k2` of attempts made, the pauses `waits2`
      slept so far, and the next pause `delay2`, doubled from `delay`. */
  lemma RemainingNext<S>(st: S, attempt: (S, nat) -> S, failed: S -> bool, n: nat, first: real, k: nat,
                         waits: seq<real>, whole: Ran<S>, delay: real,
                         st2: S, k2: nat, waits2: seq<real>, delay2: real)
    requires k < n && Remaining(st, attempt, failed, n, first, k, waits, whole)
    requires failed(attempt(st, k)) && k + 1 < n && delay == Pause(first, k)
    requires st2 == attempt(st, k) && k2 == k + 1 && waits2 == waits + Slept(delay) && delay2 == delay * 2.0
    ensures k2 < n && Remaining(st2, attempt, failed, n, first, k2, waits2, whole) && delay2 == Pause(first, k2)
  {
    RemainingAfterFailure(st, attempt, failed, n, first, k, waits, whole);
  }

  /** In the loop state, an attempt that succeeds or is the last ends the loop
      as `whole` does. */
  lemma RemainingAtEnd<S>(st: S, attempt: (S, nat) -> S, failed: S -> bool, n: nat, first: real, k: nat,
                          waits: seq<real>, whole: Ran<S>)
    requires k < n && Remaining(st, attempt, failed, n, first, k, waits, whole)
    requires !failed(attempt(st, k)) || k + 1 == n
    ensures attempt(st, k) == whole.last && k + 1 == whole.attempts && waits == whole.waits
  {
    assert waits + [] == waits;
  }

  /** How many attempts the loop makes and how it ends, when whether attempt
      `j` raises does not depend on the state it starts from (`raised(j)`):
      it stops at the first attempt that does not raise, or after the last
      one, which raised. */
  ghost predicate EndsAtFirstSuccess<S>(r: Ran<S>, failed: S -> bool, raised: nat -> bool, n: nat, k: nat)
  {
    k < r.attempts <= n
    && (forall j :: k <= j < r.attempts - 1 ==> raised(j))
    && (failed(r.last) <==> raised(r.attempts - 1))
    && (failed(r.last) ==> r.attempts == n)
  }

  lemma {:induction false} RunEnds<S>(st: S, attempt: (S, nat) -> S, failed: S -> bool, raised: nat -> bool,
                                      n: nat, first: real, k: nat, keeps: S -> bool)
    requires k < n && keeps(st)
    requires forall s, j :: keeps(s) ==> keeps(attempt(s, j)) && failed(attempt(s, j)) == raised(j)
    ensures EndsAtFirstSuccess(Run(st, attempt, failed, n, first, k), failed, raised, n, k)
    decreases n - k
  {
    var s := attempt(st, k);
    if failed(s) && k + 1 < n {
      RunEnds(s, attempt, failed, raised, n, first, k + 1, keeps);
    }
  }

  /** A positive first delay gives positive pauses; none gives none. */
  lemma {:induction false} PauseSign(first: real, k: nat)
    ensures first > 0.0 ==> Pause(first, k) > 0.0
    ensures first == 0.0 ==> Pause(first, k) == 0.0
  {
    if k > 0 {
      PauseSign(first, k - 1);
    }
  }

  /** `2^k` as a real. */
  function Pow2(k: nat): (p: real)
    ensures p >= 1.0
  {
    if k == 0 then 1.0 else 2.0 * Pow2(k - 1)
  }

  /** The pause after attempt `k` is the first delay times `2^k`. */
  lemma {:induction false} PauseIsExponential(first: real, k: nat)
    ensures Pause(first, k) == first * Pow2(k)
  {
    if k > 0 {
      PauseIsExponential(first, k - 1);
    }
  }

  /** The pauses of the loop: one after every attempt but the last, doubling
      from the first delay, or none at all when that delay is 0. */
  lemma {:induction false} RunWaits<S>(st: S, attempt: (S, nat) -> S, failed: S -> bool, n: nat, first: real, k: nat)
    requires k < n && first >= 0.0
    ensures var r := Run(st, attempt, failed, n, first, k);
      k < r.attempts
      && (first > 0.0 ==> |r.waits| == r.attempts - 1 - k
                          && forall i :: 0 <= i < |r.waits| ==> r.waits[i] == Pause(first, k + i))
      && (first == 0.0 ==> r.waits == [])
    decreases n - k
  {
    var s := attempt(st, k);
    if failed(s) && k + 1 < n {
      RunWaits(s, attempt, failed, n, first, k + 1);
      PauseSign(first, k);
      var r := Run(st, attempt, failed, n, first, k);
      var next := Run(s, attempt, failed, n, first, k + 1);
      if first > 0.0 {
        assert r.waits == [Pause(first, k)] + next.waits;
        forall i | 0 <= i < |r.waits|
          ensures r.waits[i] == Pause(first, k + i)
        {
          if i > 0 {
            assert r.waits[i] == next.waits[i - 1];
          }
        }
      }
    }
  }

  /** The pauses of the whole loop: the `i`-th is the first delay times
      `2^i`, one after every attempt but the last, or none at all when the
      first delay is 0. */
  lemma WaitsDouble<S>(st: S, attempt: (S, nat) -> S, failed: S -> bool, n: nat, first: real)
    requires 0 < n && first >= 0.0
    ensures var r := Run(st, attempt, failed, n, first, 0);
      (first > 0.0 ==> |r.waits| == r.attempts - 1 && forall i :: 0 <= i < |r.waits| ==> r.waits[i] == first * Pow2(i))
      && (first == 0.0 ==> r.waits == [])
  {
    RunWaits(st, attempt, failed, n, first, 0);
    var r := Run(st, attempt, failed, n, first, 0);
    forall i | 0 <= i < |r.waits|
      ensures first > 0.0 ==> r.waits[i] == first * Pow2(i)
    {
      PauseIsExponential(first, i);
    }
  }

  /** A property that every attempt keeps holds of the state the loop ends
      in, and so does what every attempt `j` promises of the state it leaves
      when it starts from a state with that property. */
  lemma {:induction false} RunKeeps<S>(st: S, attempt: (S, nat) -> S, failed: S -> bool, n: nat, first: real, k: nat,
                                       keeps: S -> bool, holds: (nat, S) -> bool)
    requires k < n && keeps(st)
    requires forall s, j :: keeps(s) ==> keeps(attempt(s, j)) && holds(j, attempt(s, j))
    ensures var r := Run(st, attempt, failed, n, first, k); keeps(r.last) && holds(r.attempts - 1, r.last)
    decreases n - k
  {
    var s := attempt(st, k);
    if failed(s) && k + 1 < n {
      RunKeeps(s, attempt, failed, n, first, k + 1, keeps, holds);
    }
  }

  /** The state the loop ends in is what the last attempt made of a state
      that every attempt before it kept `keeps` in. */
  lemma {:induction false} RunLast<S>(st: S, attempt: (S, nat) -> S, failed: S -> bool, n: nat, first: real, k: nat,
                                      keeps: S -> bool) returns (prev: S)
    requires k < n && keeps(st)
    requires forall s, j :: keeps(s) ==> keeps(attempt(s, j))
    ensures var r := Run(st, attempt, failed, n, first, k); keeps(prev) && r.last == attempt(prev, r.attempts - 1)
    decreases n - k
  {
    var s := attempt(st, k);
    if failed(s) && k + 1 < n {
      prev := RunLast(s, attempt, failed, n, first, k + 1, keeps);
    } else {
      prev := st;
    }
  }
}
