/** The client's retry loop (`run` in src/discovery/tcp_client.cpp). Clock readings are in
    nanoseconds, waits in milliseconds. How long each attempt takes, how much each sleep overruns
    and when `stop()` is called are up to the environment. */
module Reconnect {
  import opened Common
  import opened TcpClient

  const INITIAL_BACKOFF: nat := 1_000
  const MAX_BACKOFF: nat := 10_000
  const POLL_INTERVAL: nat := 200

  /** Milliseconds as nanoseconds. */
  function Ns(ms: nat): nat { ms * 1_000_000 }

  datatype Attempt = Attempt(outcome: AttemptOutcome, took: nat)

  /** One attempt as it happened, and how long the loop then slept. */
  datatype Record = Record(start: nat, end: nat, outcome: AttemptOutcome, waited: nat)

  /** The wait after the k-th failure in a row. */
  function Wait(k: nat): (ms: nat)
    ensures INITIAL_BACKOFF <= ms <= MAX_BACKOFF
  {
    if k == 0 then INITIAL_BACKOFF else Min(2 * Wait(k - 1), MAX_BACKOFF)
  }

  /** How many attempts in a row had failed before attempt `i`. */
  function Streak(log: seq<Record>, i: nat): nat
    requires i <= |log|
  {
    if i == 0 || !log[i - 1].outcome.RetryBackoff? then 0 else 1 + Streak(log, i - 1)
  }

  function Planned(log: seq<Record>, i: nat): nat
    requires i < |log|
  {
    if log[i].outcome.RetryFast? then INITIAL_BACKOFF else Wait(Streak(log, i))
  }

  /** When the stretch that attempt `i` would continue began: with the run, or when the last
      connection broke. */
  function Since(log: seq<Record>, t0: nat, i: nat): nat
    requires i <= |log|
  {
    if i == 0 then t0 else if log[i - 1].outcome.RetryFast? then log[i - 1].end else Since(log, t0, i - 1)
  }

  function Deadline(log: seq<Record>, giveUp: nat, t0: nat, i: nat): nat
    requires i <= |log|
  {
    Since(log, t0, i) + Ns(giveUp)
  }

  ghost predicate Waits(log: seq<Record>, i: nat)
    requires i < |log|
  {
    log[i].start <= log[i].end && log[i].waited <= Planned(log, i)
  }

  /** Between attempt `i` and the next the planned wait passes in full, and the next starts before
      the deadline. */
  ghost predicate Spaced(log: seq<Record>, giveUp: nat, t0: nat, i: nat)
    requires i + 1 < |log|
  {
    && !log[i].outcome.GiveUp? && log[i].waited == Planned(log, i)
    && log[i].end + Ns(log[i].waited) <= log[i + 1].start < Deadline(log, giveUp, t0, i + 1)
  }

  ghost predicate OnSchedule(log: seq<Record>, giveUp: nat, t0: nat) {
    && (log != [] ==> log[0].start == t0)
    && (forall i: nat | i < |log| :: Waits(log, i))
    && (forall i: nat | i + 1 < |log| :: Spaced(log, giveUp, t0, i))
  }

  /** The attempts were made in turn and took as long as they took. */
  ghost predicate Happened(log: seq<Record>, attempts: nat -> Attempt) {
    forall i: nat | i < |log| :: log[i].outcome == attempts(i).outcome && log[i].end == log[i].start + attempts(i).took
  }

  /** The loop is about to make its next attempt at `now`. */
  ghost predicate DueAt(log: seq<Record>, giveUp: nat, t0: nat, now: nat) {
    if log == [] then now == t0 else
      var last := log[|log| - 1];
      && !last.outcome.GiveUp? && last.waited == Planned(log, |log| - 1)
      && last.end + Ns(last.waited) <= now < Deadline(log, giveUp, t0, |log|)
  }

  lemma {:induction false} PrefixKeeps(log: seq<Record>, r: Record, t0: nat, i: nat)
    requires i <= |log|
    ensures Streak(log + [r], i) == Streak(log, i) && Since(log + [r], t0, i) == Since(log, t0, i)
    ensures i < |log| ==> Planned(log + [r], i) == Planned(log, i)
  {
    if i > 0 { PrefixKeeps(log, r, t0, i - 1); }
  }

  lemma Extend(log: seq<Record>, r: Record, giveUp: nat, t0: nat, attempts: nat -> Attempt)
    requires Happened(log, attempts) && r.outcome == attempts(|log|).outcome && r.end == r.start + attempts(|log|).took
    requires OnSchedule(log, giveUp, t0) && DueAt(log, giveUp, t0, r.start)
    requires r.start <= r.end && r.waited <= if r.outcome.RetryFast? then INITIAL_BACKOFF else Wait(Streak(log, |log|))
    ensures OnSchedule(log + [r], giveUp, t0) && Happened(log + [r], attempts)
  {
    var more := log + [r];
    hide Streak, Since, Wait, Planned;
    forall i: nat | i < |more| ensures Waits(more, i) {
      PrefixKeeps(log, r, t0, i);
      if i == |log| { NewestRecord(log, r, t0); } else { assert Waits(log, i); }
    }
    forall i: nat | i + 1 < |more| ensures Spaced(more, giveUp, t0, i) {
      PrefixKeeps(log, r, t0, i);
      PrefixKeeps(log, r, t0, i + 1);
      if i + 1 < |log| { assert Spaced(log, giveUp, t0, i); }
    }
  }

  lemma NewestRecord(log: seq<Record>, r: Record, t0: nat)
    ensures var more := log + [r];
            && Planned(more, |log|) == (if r.outcome.RetryFast? then INITIAL_BACKOFF else Wait(Streak(log, |log|)))
            && Since(more, t0, |more|) == (if r.outcome.RetryFast? then r.end else Since(log, t0, |log|))
            && Wait(Streak(more, |more|)) ==
                 (if r.outcome.RetryBackoff? then Min(2 * Wait(Streak(log, |log|)), MAX_BACKOFF) else INITIAL_BACKOFF)
  {
    PrefixKeeps(log, r, t0, |log|);
  }

  /** Having slept its backoff out before the deadline, the loop goes on. */
  lemma GoesOn(log: seq<Record>, r: Record, giveUp: nat, t0: nat, now: nat)
    requires !r.outcome.GiveUp? && r.end + Ns(r.waited) <= now
    requires r.waited == if r.outcome.RetryFast? then INITIAL_BACKOFF else Wait(Streak(log, |log|))
    requires now < (if r.outcome.RetryFast? then r.end else Since(log, t0, |log|)) + Ns(giveUp)
    ensures DueAt(log + [r], giveUp, t0, now)
  {
    NewestRecord(log, r, t0);
  }

  /** Sleeping out a backoff in slices. `sleeps` counts the slices of the whole run. */
  method SleepOut(backoff: nat, deadline: nat, stopAt: nat, now0: nat, overrun: nat -> nat, most: nat, sleeps0: nat)
    returns (waited: nat, now: nat, sleeps: nat)
    requires most >= 1 && forall i :: overrun(i) <= most
    ensures waited <= backoff && now0 + Ns(waited) <= now
    ensures waited == backoff || now >= deadline || now >= stopAt
    ensures now <= Max(now0, deadline + most) && (now0 < stopAt ==> now <= stopAt + Ns(200) + most)
    ensures backoff > 0 && now0 < stopAt && now0 < deadline ==> now > now0
  {
    now, sleeps, waited := now0, sleeps0, 0;
    var remaining := backoff;
    while remaining > 0 && now < stopAt
      invariant 0 <= remaining == backoff - waited && now0 + Ns(waited) <= now
      invariant now <= Max(now0, deadline + most) && (now0 < stopAt ==> now <= stopAt + Ns(POLL_INTERVAL) + most)
      invariant now == now0 ==> remaining == backoff
      decreases stopAt - now
    {
      if now >= deadline {
        return;
      }
      var step := Min(remaining, Min(POLL_INTERVAL, (deadline - now) / 1_000_000));
      assert Ns(step) <= deadline - now;
      // A sleep of zero length, less than a millisecond before the deadline, is a turn of a busy
      // loop: all that is assumed of it is that the clock moves.
      now := now + (if step == 0 then Max(1, overrun(sleeps)) else Ns(step) + overrun(sleeps));
      sleeps := sleeps + 1;
      remaining := remaining - step;
      waited := waited + step;
    }
  }

  /** What `run` does after an attempt: end, or wait for the next one. */
  method AfterAttempt(outcome: AttemptOutcome, backoff0: nat, deadline0: nat, now0: nat, giveUp: nat, stopAt: nat,
                      overrun: nat -> nat, most: nat, sleeps0: nat)
    returns (goOn: bool, waited: nat, backoff: nat, deadline: nat, now: nat, sleeps: nat)
    requires backoff0 > 0 && most >= 1 && forall i :: overrun(i) <= most
    ensures deadline == if outcome.RetryFast? then now0 + Ns(giveUp) else deadline0
    ensures waited <= (if outcome.RetryFast? then INITIAL_BACKOFF else backoff0) && now0 + Ns(waited) <= now
    ensures now <= Max(now0, deadline + most)
    ensures if goOn then
              && !outcome.GiveUp? && now0 < now < deadline
              && (now < stopAt ==> waited == if outcome.RetryFast? then INITIAL_BACKOFF else backoff0)
              && backoff == if outcome.RetryFast? then INITIAL_BACKOFF else Min(2 * backoff0, MAX_BACKOFF)
            else outcome.GiveUp? || now >= stopAt || now >= deadline
  {
    goOn, waited, backoff, deadline, now, sleeps := false, 0, backoff0, deadline0, now0, sleeps0;
    if outcome.RetryFast? {
      deadline := now + Ns(giveUp);
      backoff := INITIAL_BACKOFF;
    }
    if outcome.GiveUp? || now >= stopAt {
      return;
    }
    if !outcome.RetryFast? && now >= deadline {
      return;
    }
    waited, now, sleeps := SleepOut(backoff, deadline, stopAt, now, overrun, most, sleeps);
    if now >= deadline {
      return;
    }
    goOn := true;
    if !outcome.RetryFast? {
      backoff := Min(backoff * 2, MAX_BACKOFF);
    }
  }

  /** `run`. It stays on schedule, and it ends for a reason: a rejection, `stop()`, or a stretch
      without a connection that has lasted past the deadline -- by no more than an attempt or one
      sleep's overrun. */
  method Run(giveUp: nat, attempts: nat -> Attempt, overrun: nat -> nat, most: nat, t0: nat, stopAt: nat)
    returns (log: seq<Record>, end: nat)
    requires most >= 1 && forall i :: overrun(i) <= most
    ensures OnSchedule(log, giveUp, t0) && Happened(log, attempts)
    ensures end >= stopAt || (log != [] && (log[|log| - 1].outcome.GiveUp? || end >= Deadline(log, giveUp, t0, |log|)))
    ensures log != [] ==> end <= Max(log[|log| - 1].end, Deadline(log, giveUp, t0, |log|) + most)
  {
    var now: nat, sleeps: nat, backoff: nat, deadline: nat, goOn := t0, 0, INITIAL_BACKOFF, t0 + Ns(giveUp), true;
    log := [];
    hide Streak, Since, Wait, Planned, OnSchedule, DueAt, Happened, Ns, Max, Min;
    Empty(giveUp, t0, attempts);
    while goOn && now < stopAt
      invariant OnSchedule(log, giveUp, t0) && Happened(log, attempts)
      invariant deadline == Deadline(log, giveUp, t0, |log|)
      invariant goOn ==> backoff == Wait(Streak(log, |log|)) && (now < stopAt ==> DueAt(log, giveUp, t0, now))
      invariant goOn || now >= stopAt || (log != [] && (log[|log| - 1].outcome.GiveUp? || now >= deadline))
      invariant log != [] ==> now <= Max(log[|log| - 1].end, deadline + most)
      decreases goOn, stopAt - now
    {
      ghost var before := log;
      var attempt := attempts(|log|);
      var start: nat, ended: nat := now, now + attempt.took;
      var waited;
      goOn, waited, backoff, deadline, now, sleeps :=
        AfterAttempt(attempt.outcome, backoff, deadline, ended, giveUp, stopAt, overrun, most, sleeps);
      var record := Record(start, ended, attempt.outcome, waited);
      NewestRecord(log, record, t0);
      Extend(log, record, giveUp, t0, attempts);
      log := log + [record];
      if goOn && now < stopAt { GoesOn(before, record, giveUp, t0, now); }
    }
    end := now;
  }

  lemma Empty(giveUp: nat, t0: nat, attempts: nat -> Attempt)
    ensures Happened([], attempts)
    ensures OnSchedule([], giveUp, t0) && DueAt([], giveUp, t0, t0) && Wait(Streak([], 0)) == INITIAL_BACKOFF && Since([], t0, 0) == t0
  {
  }

  // ------------------------------------------------------------------------------------
  // What the schedule means
  // ------------------------------------------------------------------------------------

  /** No attempt from `j` up to `i` had been in session. */
  ghost predicate NoneConnected(log: seq<Record>, j: nat, i: nat) {
    forall k: nat | j <= k < i && k < |log| :: !log[k].outcome.RetryFast?
  }

  lemma {:induction false} SinceStays(log: seq<Record>, t0: nat, j: nat, i: nat)
    requires j <= i <= |log| && NoneConnected(log, j, i)
    ensures Since(log, t0, i) == Since(log, t0, j)
  {
    if j < i { SinceStays(log, t0, j, i - 1); }
  }

  /** Where a stretch begins, and so when it has to end: with the run, or with the end of the last attempt
      that had been in session. */
  lemma {:induction false} StretchBegins(log: seq<Record>, giveUp: nat, t0: nat, i: nat)
    requires i <= |log|
    ensures NoneConnected(log, 0, i) ==> Deadline(log, giveUp, t0, i) == t0 + Ns(giveUp)
    ensures forall j: nat | j < i && log[j].outcome.RetryFast? && NoneConnected(log, j + 1, i) ::
              Deadline(log, giveUp, t0, i) == log[j].end + Ns(giveUp)
  {
    hide Ns, NoneConnected;
    if NoneConnected(log, 0, i) { SinceStays(log, t0, 0, i); }
    forall j: nat | j < i && log[j].outcome.RetryFast? && NoneConnected(log, j + 1, i)
      ensures Deadline(log, giveUp, t0, i) == log[j].end + Ns(giveUp)
    {
      SinceStays(log, t0, j + 1, i);
    }
  }

  /** The streak is the attempts right before that failed without connecting, and no others. */
  lemma {:induction false} StreakIsUnbroken(log: seq<Record>, i: nat)
    requires i <= |log|
    ensures Streak(log, i) <= i && forall k: nat | i - Streak(log, i) <= k < i :: log[k].outcome.RetryBackoff?
    ensures Streak(log, i) < i ==> !log[i - Streak(log, i) - 1].outcome.RetryBackoff?
  {
    if i > 0 { StreakIsUnbroken(log, i - 1); }
  }

  /** The waits are 1, 2, 4, 8, 10, 10, ... seconds. */
  lemma {:induction false} WaitsDoubleUpToTen(k: nat)
    ensures Wait(k) == if k == 0 then 1_000 else if k == 1 then 2_000 else if k == 2 then 4_000 else if k == 3 then 8_000 else 10_000
  {
    if k > 0 { WaitsDoubleUpToTen(k - 1); }
  }

  /** The waits before the k-th retry, together. */
  function Waited(k: nat): nat { if k == 0 then 0 else Waited(k - 1) + Wait(k - 1) }

  lemma {:induction false} WaitedGrows(k: nat)
    ensures k >= 4 ==> Waited(k) == 15_000 + 10_000 * (k - 4)
    ensures k == 0 ==> Waited(k) == 0
    ensures k == 1 ==> Waited(k) == 1_000
    ensures k == 2 ==> Waited(k) == 3_000
    ensures k == 3 ==> Waited(k) == 7_000
  {
    if k > 0 {
      WaitedGrows(k - 1);
      WaitsDoubleUpToTen(k - 1);
    }
  }

  /** `n` attempts in a row, from attempt `i`, that failed without connecting. */
  ghost predicate IsStretch(log: seq<Record>, i: nat, n: nat) {
    && i + n <= |log| && n > 0
    && (i > 0 ==> log[i - 1].outcome.RetryFast?)
    && forall j | i <= j < i + n :: log[j].outcome.RetryBackoff?
  }

  lemma {:induction false} StretchStarts(log: seq<Record>, giveUp: nat, t0: nat, i: nat, n: nat, k: nat)
    requires OnSchedule(log, giveUp, t0) && IsStretch(log, i, n) && k < n
    ensures Streak(log, i + k) == k && Since(log, t0, i + k) == Since(log, t0, i)
    ensures log[i + k].start >= Since(log, t0, i) + Ns(Waited(k))
  {
    if k > 0 {
      StretchStarts(log, giveUp, t0, i, n, k - 1);
      assert log[i + k - 1].outcome.RetryBackoff?;
      assert Spaced(log, giveUp, t0, i + k - 1) && Waits(log, i + k - 1);
      assert Planned(log, i + k - 1) == Wait(k - 1);
    } else if i > 0 {
      assert Spaced(log, giveUp, t0, i - 1) && Waits(log, i - 1);
    }
  }

  /** One stretch without a connection is at most 5 attempts, and one more for every ten seconds of
      the give-up time. */
  lemma AttemptsBounded(log: seq<Record>, giveUp: nat, t0: nat, i: nat, n: nat)
    requires OnSchedule(log, giveUp, t0) && IsStretch(log, i, n)
    ensures n <= 5 + giveUp / 10_000
  {
    if n > 1 {
      StretchStarts(log, giveUp, t0, i, n, n - 1);
      assert Spaced(log, giveUp, t0, i + n - 2);
      assert log[i + n - 1].start < Since(log, t0, i + n - 1) + Ns(giveUp);
      WaitedGrows(n - 1);
    }
  }

  /** A run whose last attempt failed without connecting is over within one attempt, or one
      sleep's overrun, of the deadline of its last stretch. */
  lemma EndsSoonAfterDeadline(log: seq<Record>, giveUp: nat, t0: nat, end: nat, most: nat)
    requires OnSchedule(log, giveUp, t0) && log != [] && log[|log| - 1].outcome.RetryBackoff?
    requires end <= Max(log[|log| - 1].end, Deadline(log, giveUp, t0, |log|) + most)
    ensures var last := log[|log| - 1];
            end <= Deadline(log, giveUp, t0, |log|) + Max(last.end - last.start, most)
  {
    var n := |log|;
    assert Since(log, t0, n) == Since(log, t0, n - 1);
    if n > 1 { assert Spaced(log, giveUp, t0, n - 2); }
  }
}
