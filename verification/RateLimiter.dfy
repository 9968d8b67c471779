/** The durable per-caller limiter: a fixed window of admissions, then a lockout. */
module RateLimiter {
  import opened Tables

  /** The decision `reserve_rate_slot` takes on the locked row (absent for a new
      caller) at a clock reading, and the row it leaves. */
  function Decide(row: Option<Limit>, now: Time, window: int, max: int, lockout: int): (Limit, bool) {
    var found := if row.Some? then row.value else Limit(now, 0, None);
    if found.lockedUntil.Some? && now < found.lockedUntil.value then (found, false)
    else
      var elapsed := now >= found.windowStartedAt + window;
      var started := if elapsed then now else found.windowStartedAt;
      var attempts := if elapsed then 0 else found.attempts;
      if attempts >= max then (Limit(started, found.attempts, Some(now + lockout)), false)
      else (Limit(started, attempts + 1, None), true)
  }

  datatype Policy = Policy(window: int, max: int, lockout: int) {
    predicate Valid() { window >= 1 && max >= 1 && lockout >= 1 }
  }

  /** The row a new caller has after calls at these clock readings, in the order
      the calls locked the row. */
  function Row(p: Policy, readings: seq<Time>): Option<Limit> {
    if readings == [] then None
    else Some(Decide(Row(p, readings[..|readings| - 1]), readings[|readings| - 1], p.window, p.max, p.lockout).0)
  }

  /** Whether the last of these calls was admitted. */
  predicate LastAdmitted(p: Policy, readings: seq<Time>)
    requires readings != []
  {
    Decide(Row(p, readings[..|readings| - 1]), readings[|readings| - 1], p.window, p.max, p.lockout).1
  }

  /** How many calls were admitted with a reading in `[from, to)`. */
  function Admissions(p: Policy, readings: seq<Time>, from: Time, to: Time): nat {
    if readings == [] then 0
    else
      Admissions(p, readings[..|readings| - 1], from, to)
      + if LastAdmitted(p, readings) && from <= readings[|readings| - 1] < to then 1 else 0
  }

  predicate NonDecreasing(readings: seq<Time>) {
    forall i, j :: 0 <= i <= j < |readings| ==> readings[i] <= readings[j]
  }

  // Admission told from the earlier calls

  /** The call that began the current window: the first admitted call, or an admitted
      call at least a window after the one that began the last. */
  function Opener(p: Policy, readings: seq<Time>): (o: Option<nat>)
    ensures o.Some? ==> o.value < |readings|
  {
    if readings == [] then None
    else
      var n := |readings| - 1;
      var o := Opener(p, readings[..n]);
      if LastAdmitted(p, readings) && (o.Some? ==> readings[n] >= readings[o.value] + p.window) then Some(n) else o
  }

  /** How many calls were admitted since the window began, the first included. */
  function Used(p: Policy, readings: seq<Time>): nat {
    if readings == [] then 0
    else
      var n := |readings| - 1;
      if !LastAdmitted(p, readings) then Used(p, readings[..n])
      else if Opener(p, readings) == Some(n) then 1
      else Used(p, readings[..n]) + 1
  }

  /** The reading of the rejection whose lockout was running after the last call: one
      that came outside any lockout, with only calls inside its own lockout since. */
  function LockedAt(p: Policy, readings: seq<Time>): Option<Time> {
    if readings == [] then None
    else
      var n := |readings| - 1;
      var l := LockedAt(p, readings[..n]);
      if l.Some? && readings[n] < l.value + p.lockout then l
      else if LastAdmitted(p, readings) then None
      else Some(readings[n])
  }

  ghost predicate RowTells(p: Policy, readings: seq<Time>) {
    var o, l := Opener(p, readings), LockedAt(p, readings);
    match Row(p, readings)
    case None => o.None? && l.None? && readings == []
    case Some(row) =>
      && o.Some? && row.windowStartedAt == readings[o.value] && row.attempts == Used(p, readings)
      && row.lockedUntil == (if l.Some? then Some(l.value + p.lockout) else None)
  }

  lemma OneMoreCall(p: Policy, readings: seq<Time>, now: Time)
    requires p.Valid() && RowTells(p, readings)
    ensures RowTells(p, readings + [now])
    ensures LastAdmitted(p, readings + [now]) <==>
              && (LockedAt(p, readings).None? || now >= LockedAt(p, readings).value + p.lockout)
              && (Opener(p, readings).None? || now >= readings[Opener(p, readings).value] + p.window
                  || Used(p, readings) < p.max)
  {
    assert (readings + [now])[..|readings|] == readings;
  }

  lemma {:induction false} RowAlwaysTells(p: Policy, readings: seq<Time>)
    requires p.Valid()
    ensures RowTells(p, readings)
  {
    if readings != [] {
      var n := |readings| - 1;
      RowAlwaysTells(p, readings[..n]);
      OneMoreCall(p, readings[..n], readings[n]);
      assert readings[..n] + [readings[n]] == readings;
    }
  }

  /** Exactly when a call is admitted: no lockout of an earlier rejection is running,
      and the window is over or has admitted fewer calls than the limit. */
  lemma AdmittedIff(p: Policy, readings: seq<Time>, now: Time)
    requires p.Valid()
    ensures LastAdmitted(p, readings + [now]) <==>
              && (LockedAt(p, readings).None? || now >= LockedAt(p, readings).value + p.lockout)
              && (Opener(p, readings).None? || now >= readings[Opener(p, readings).value] + p.window
                  || Used(p, readings) < p.max)
  {
    RowAlwaysTells(p, readings);
    OneMoreCall(p, readings, now);
  }

  /** A caller rejected at `t`, outside any lockout, is rejected for the whole lockout:
      every call that follows is, until one reads `t + lockout` or later. */
  lemma {:induction false} LockoutHolds(p: Policy, readings: seq<Time>, t: Time, later: seq<Time>)
    requires p.Valid() && !LastAdmitted(p, readings + [t])
    requires LockedAt(p, readings).None? || t >= LockedAt(p, readings).value + p.lockout
    requires forall i :: 0 <= i < |later| ==> later[i] < t + p.lockout
    ensures LockedAt(p, readings + [t] + later) == Some(t)
    ensures later != [] ==> !LastAdmitted(p, readings + [t] + later)
    decreases |later|
  {
    var first := readings + [t];
    assert first[..|readings|] == readings;
    if later == [] {
      assert first + later == first;
    } else {
      var n := |later| - 1;
      LockoutHolds(p, readings, t, later[..n]);
      AdmittedIff(p, first + later[..n], later[n]);
      assert first + later == first + later[..n] + [later[n]];
      assert (first + later)[..|first| + n] == first + later[..n];
    }
  }

  /** The first calls of a caller, as many as the limit, are all admitted. */
  lemma {:induction false} FirstCallsAreAdmitted(p: Policy, readings: seq<Time>)
    requires p.Valid() && |readings| <= p.max
    ensures Used(p, readings) <= |readings| && LockedAt(p, readings).None?
    ensures readings != [] ==> LastAdmitted(p, readings)
    decreases |readings|
  {
    if readings != [] {
      var n := |readings| - 1;
      FirstCallsAreAdmitted(p, readings[..n]);
      AdmittedIff(p, readings[..n], readings[n]);
      assert readings[..n] + [readings[n]] == readings;
    }
  }

  // Bounded lockout

  predicate Bounded(p: Policy, l: Limit) {
    && 1 <= l.attempts <= p.max
    && (l.lockedUntil.Some? ==>
          l.attempts == p.max && l.lockedUntil.value < l.windowStartedAt + p.window + p.lockout)
  }

  /** In every reachable row attempts stay within the limit and a lockout ends
      before a window and a lockout have passed since the window began. */
  lemma {:induction false} EveryRowIsBounded(p: Policy, readings: seq<Time>)
    requires p.Valid()
    ensures Row(p, readings).Some? ==> Bounded(p, Row(p, readings).value)
  {
    if readings != [] {
      EveryRowIsBounded(p, readings[..|readings| - 1]);
    }
  }

  /** However many calls are rejected in a row, they never move the window, never
      add an attempt, and never delay the next admission beyond one window and one
      lockout after the window began. */
  lemma {:induction false} RejectionsNeverPostpone(p: Policy, readings: seq<Time>, n: nat, now: Time)
    requires p.Valid() && 0 < n <= |readings|
    requires forall k :: n < k <= |readings| ==> !LastAdmitted(p, readings[..k])
    ensures Row(p, readings[..n]).Some? && Row(p, readings).Some?
    ensures var first, last := Row(p, readings[..n]).value, Row(p, readings).value;
            && last.windowStartedAt == first.windowStartedAt
            && last.attempts == first.attempts
            && (now >= first.windowStartedAt + p.window + p.lockout ==> LastAdmitted(p, readings + [now]))
    decreases |readings|
  {
    EveryRowIsBounded(p, readings);
    assert (readings + [now])[..|readings|] == readings;
    if n == |readings| {
      assert readings[..n] == readings;
    } else {
      var earlier := readings[..|readings| - 1];
      assert earlier[..n] == readings[..n];
      forall k | n < k <= |earlier| ensures !LastAdmitted(p, earlier[..k]) {
        assert earlier[..k] == readings[..k];
      }
      RejectionsNeverPostpone(p, earlier, n, now);
      EveryRowIsBounded(p, earlier);
      assert readings[..|readings|] == readings;
    }
  }

  /** Inside a lockout nothing is written. */
  lemma LockoutChangesNothing(p: Policy, l: Limit, now: Time)
    requires l.lockedUntil.Some? && now < l.lockedUntil.value
    ensures Decide(Some(l), now, p.window, p.max, p.lockout) == (l, false)
  {
  }

  // Admissions while readings do not go back

  ghost predicate SlidingBound(p: Policy, readings: seq<Time>, l: Limit, x: Time)
    requires readings != []
  {
    var n := Admissions(p, readings, x, x + p.window);
    && n <= 2 * p.max - 1
    && (x > l.windowStartedAt ==> n <= l.attempts - 1)
    && (l.windowStartedAt - p.window < x <= l.windowStartedAt ==> n <= p.max - 1 + l.attempts)
    && (x > readings[|readings| - 1] ==> n == 0)
  }

  lemma {:induction false} SlidingWindow(p: Policy, readings: seq<Time>, x: Time)
    requires p.Valid() && readings != [] && NonDecreasing(readings)
    ensures Bounded(p, Row(p, readings).value) && Row(p, readings).value.windowStartedAt <= readings[|readings| - 1]
    ensures SlidingBound(p, readings, Row(p, readings).value, x)
    decreases |readings|
  {
    EveryRowIsBounded(p, readings);
    var earlier := readings[..|readings| - 1];
    if earlier != [] {
      SlidingWindow(p, earlier, x);
      assert earlier[|earlier| - 1] <= readings[|readings| - 1];
    }
  }

  /** If the clock never goes back, no interval as long as the window holds more
      than twice the limit less one: two windows can meet inside it, but not with
      the first admission of the earlier one. */
  lemma AtMostTwoWindowsMeet(p: Policy, readings: seq<Time>, x: Time)
    requires p.Valid() && NonDecreasing(readings)
    ensures Admissions(p, readings, x, x + p.window) <= 2 * p.max - 1
  {
    if readings != [] {
      SlidingWindow(p, readings, x);
    }
  }

  // The bound is reached

  lemma {:induction false} Fill(p: Policy, readings: seq<Time>, at: Time, n: nat, from: Time, to: Time)
    returns (more: seq<Time>)
    requires p.Valid() && readings != [] && NonDecreasing(readings) && readings[|readings| - 1] <= at
    requires var l := Row(p, readings).value; l.lockedUntil.None? && at < l.windowStartedAt + p.window && l.attempts + n <= p.max
    ensures NonDecreasing(more) && |more| == |readings| + n && more[|more| - 1] <= at
    ensures Row(p, more) == Some(Row(p, readings).value.(attempts := Row(p, readings).value.attempts + n))
    ensures Admissions(p, more, from, to) == Admissions(p, readings, from, to) + if from <= at < to then n else 0
    decreases n
  {
    if n == 0 {
      more := readings;
    } else {
      var next := readings + [at];
      assert next[..|next| - 1] == readings;
      more := Fill(p, next, at, n - 1, from, to);
    }
  }

  lemma BoundIsReached(p: Policy) returns (readings: seq<Time>, x: Time)
    requires p.Valid() && p.window >= 2
    ensures NonDecreasing(readings) && Admissions(p, readings, x, x + p.window) == 2 * p.max - 1
  {
    x := p.window - 1;
    var first := [0];
    assert first[..0] == [];
    var late := Fill(p, first, x, p.max - 1, x, x + p.window);
    var reset := late + [p.window];
    assert reset[..|reset| - 1] == late;
    readings := Fill(p, reset, p.window, p.max - 1, x, x + p.window);
  }

  /** In a window of one tick the admitted calls of a window all read the same
      clock value, where the window starts. */
  lemma {:induction false} OneTickWindow(p: Policy, readings: seq<Time>, x: Time)
    requires p.Valid() && p.window == 1 && readings != [] && NonDecreasing(readings)
    ensures var l, n := Row(p, readings).value, Admissions(p, readings, x, x + 1);
            && l.windowStartedAt <= readings[|readings| - 1] && n <= p.max
            && (x == l.windowStartedAt ==> n <= l.attempts) && (x > l.windowStartedAt ==> n == 0)
    decreases |readings|
  {
    EveryRowIsBounded(p, readings);
    var earlier := readings[..|readings| - 1];
    if earlier != [] {
      OneTickWindow(p, earlier, x);
      EveryRowIsBounded(p, earlier);
      assert earlier[|earlier| - 1] <= readings[|readings| - 1];
    }
  }

  /** No more than the limit in the window length from `x`. */
  predicate WithinMax(p: Policy, readings: seq<Time>, x: Time) {
    Admissions(p, readings, x, x + p.window) <= p.max
  }

  /** The limit itself bounds every interval as long as the window if and only if it
      is one, or the window is a single tick of the clock. */
  lemma MaxBoundsWindowIff(p: Policy)
    requires p.Valid()
    ensures (forall readings, x :: NonDecreasing(readings) ==> WithinMax(p, readings, x)) <==> (p.max == 1 || p.window == 1)
  {
    if p.max == 1 || p.window == 1 {
      forall readings, x | NonDecreasing(readings) ensures WithinMax(p, readings, x) {
        AtMostTwoWindowsMeet(p, readings, x);
        if p.window == 1 && readings != [] { OneTickWindow(p, readings, x); }
      }
    } else {
      var readings, x := BoundIsReached(p);
      assert !WithinMax(p, readings, x);
    }
  }

  // Admissions whatever the order of the readings

  lemma {:induction false} WindowsAreApart(p: Policy, readings: seq<Time>, t: Time, d: nat) returns (k: nat)
    requires p.Valid() && readings != []
    requires forall i :: 0 <= i < |readings| ==> t <= readings[i] <= t + d
    ensures Row(p, readings).Some?
    ensures var l := Row(p, readings).value;
            && t + k * p.window <= l.windowStartedAt <= t + d
            && Admissions(p, readings, t, t + d + 1) <= p.max * k + l.attempts
    decreases |readings|
  {
    EveryRowIsBounded(p, readings);
    var earlier := readings[..|readings| - 1];
    var now := readings[|readings| - 1];
    if earlier == [] {
      k := 0;
    } else {
      var j := WindowsAreApart(p, earlier, t, d);
      EveryRowIsBounded(p, earlier);
      var l := Row(p, earlier).value;
      if LastAdmitted(p, readings) && now >= l.windowStartedAt + p.window {
        k := j + 1;
        assert k * p.window == j * p.window + p.window;
        assert p.max * k == p.max * j + p.max;
      } else {
        k := j;
      }
    }
  }

  /** With readings in any order, calls whose readings span `d` get at most the
      limit for each window that starts within the span. */
  lemma AdmissionsOverSpan(p: Policy, readings: seq<Time>, t: Time, d: nat)
    requires p.Valid()
    requires forall i :: 0 <= i < |readings| ==> t <= readings[i] <= t + d
    ensures Admissions(p, readings, t, t + d + 1) <= p.max * (1 + d / p.window)
  {
    if readings != [] {
      EveryRowIsBounded(p, readings);
      var k := WindowsAreApart(p, readings, t, d);
      Quotient(k, p.window, d);
      Product(p.max, k + 1, 1 + d / p.window);
      assert p.max * (k + 1) == p.max * k + p.max;
    } else {
      Product(p.max, 0, 1 + d / p.window);
    }
  }

  lemma Quotient(k: nat, w: int, d: nat)
    requires w >= 1 && k * w <= d
    ensures k <= d / w
  {
    var q := d / w;
    assert d < w * (q + 1);
    if k >= q + 1 {
      Product(w, q + 1, k);
    }
  }

  lemma Product(m: int, a: int, b: int)
    requires m >= 0 && a <= b
    ensures m * a <= m * b
  {
  }
}
