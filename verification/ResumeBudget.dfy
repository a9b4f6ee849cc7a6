/** How often `resume_loop` (wosh-client/src/lib.rs) dials before it gives up, whatever the clock does. */
module ResumeBudget {
  import opened Bytes

  const RESUME_BACKOFF_START_MS: nat := 500
  const RESUME_BACKOFF_CAP_MS: nat := 15_000
  const RESUME_WINDOW_MS: nat := 600_000
  const RESUME_ATTEMPT_CAP_MS: nat := 20_000

  /** What pass `i` of the loop runs into: the first three before it dials, the others after. */
  datatype Fate = Gone | StandsDown | Overflowed | GoneMeanwhile | Retry | Resumes | Refuses

  datatype Ending = Retired | Stalled | BudgetSpent | ReplayLost | Resumed | Refused

  /** The sleep after pass `n`. */
  function Backoff(n: nat): nat {
    if n == 0 then RESUME_BACKOFF_START_MS else Min(2 * Backoff(n - 1), RESUME_BACKOFF_CAP_MS)
  }

  /**
   * What the top of pass `n` charges. The clock is read twice there, first to charge, then to restart the
   * stopwatch, so reading `2n` started the stretch that reading `2n + 1` ends; the sleep lies inside it.
   */
  function Charge(clock: nat -> nat, n: nat): nat {
    Min(Monus(clock(2 * n + 1), clock(2 * n)), RESUME_ATTEMPT_CAP_MS)
  }

  /** The budget spent when pass `n` looks at it. */
  function Spent(clock: nat -> nat, n: nat): nat {
    if n == 0 then Charge(clock, 0)
    else Spent(clock, n - 1) + Backoff(n - 1) + Charge(clock, n)
  }

  function Asked(n: nat): nat {
    if n == 0 then 0 else Asked(n - 1) + Backoff(n - 1)
  }

  lemma {:induction false} BackoffSettles(n: nat)
    requires n >= 5
    ensures Backoff(n) == RESUME_BACKOFF_CAP_MS
  {
    if n == 5 {
      assert Backoff(1) == 1_000;
      assert Backoff(2) == 2_000;
      assert Backoff(3) == 4_000;
      assert Backoff(4) == 8_000;
    } else {
      BackoffSettles(n - 1);
    }
  }

  lemma {:induction false} AskedIs(n: nat)
    requires n >= 5
    ensures Asked(n) == 15_500 + 15_000 * (n - 5)
  {
    if n == 5 {
      assert Backoff(1) == 1_000;
      assert Backoff(2) == 2_000;
      assert Backoff(3) == 4_000;
      assert Backoff(4) == 8_000;
      assert Asked(1) == 500;
      assert Asked(2) == 1_500;
      assert Asked(3) == 3_500;
      assert Asked(4) == 7_500;
    } else {
      AskedIs(n - 1);
      BackoffSettles(n - 1);
    }
  }

  /** Every pass is paid for: at least the sleep it asked for, at most that and the attempt's cap. */
  lemma {:induction false} SpentBetween(clock: nat -> nat, n: nat)
    ensures Asked(n) <= Spent(clock, n) <= Asked(n) + RESUME_ATTEMPT_CAP_MS * (n + 1)
    ensures n > 0 ==>
              Backoff(n - 1) <= Spent(clock, n) - Spent(clock, n - 1) <= Backoff(n - 1) + RESUME_ATTEMPT_CAP_MS
  {
    if n == 0 {
    } else {
      SpentBetween(clock, n - 1);
    }
  }

  lemma {:induction false} SpentGrows(clock: nat -> nat, m: nat, n: nat)
    requires m <= n
    ensures Spent(clock, m) <= Spent(clock, n)
  {
    if m == n {
    } else {
      SpentGrows(clock, m, n - 1);
    }
  }

  /** No clock spends the window before nineteen dials, and none leaves any of it after forty-four. */
  lemma WindowLastsBetween(clock: nat -> nat, n: nat)
    ensures n <= 18 ==> Spent(clock, n) <= RESUME_WINDOW_MS
    ensures n >= 44 ==> Spent(clock, n) > RESUME_WINDOW_MS
  {
    if n <= 18 {
      SpentGrows(clock, n, 18);
      SpentBetween(clock, 18);
      AskedIs(18);
    } else if n >= 44 {
      SpentGrows(clock, 44, n);
      SpentBetween(clock, 44);
      AskedIs(44);
    }
  }

  lemma ChargeIs(clock: nat -> nat, n: nat)
    ensures Charge(clock, n) == Min(Monus(clock(2 * n + 1), clock(2 * n)), RESUME_ATTEMPT_CAP_MS)
  {
  }

  lemma NextPass(clock: nat -> nat, n: nat)
    ensures Spent(clock, 0) == Charge(clock, 0) && Backoff(0) == RESUME_BACKOFF_START_MS
    ensures Spent(clock, n + 1) == Spent(clock, n) + Backoff(n) + Charge(clock, n + 1)
    ensures Backoff(n + 1) == Min(Backoff(n) * 2, RESUME_BACKOFF_CAP_MS)
  {
  }

  /** The first `n` passes dialled, failed retryably and had budget left. */
  ghost predicate Retried(clock: nat -> nat, fate: nat -> Fate, n: nat) {
    forall i :: 0 <= i < n ==> fate(i) == Retry && Spent(clock, i) <= RESUME_WINDOW_MS
  }

  /**
   * The loop itself. If every attempt fails retryably it dials at least 19 and at most 44 times and then gives
   * up; it gives up on the budget only after 19 retryable dials.
   */
  method ResumeLoop(clock: nat -> nat, fate: nat -> Fate) returns (dials: nat, ending: Ending)
    ensures dials <= 44
    ensures dials > 0 ==> Retried(clock, fate, dials - 1) && Spent(clock, dials - 1) <= RESUME_WINDOW_MS
    ensures ending == BudgetSpent ==>
              && dials >= 19 && Spent(clock, dials) > RESUME_WINDOW_MS && Retried(clock, fate, dials)
              && fate(dials) != Gone && fate(dials) != StandsDown
    ensures (forall i :: fate(i) == Retry) ==> ending == BudgetSpent
    ensures ending == Resumed <==> dials > 0 && fate(dials - 1) == Resumes
    ensures ending == Refused <==> dials > 0 && fate(dials - 1) == Refuses
    ensures ending == Stalled ==> fate(dials) == StandsDown && Retried(clock, fate, dials)
    ensures ending == Retired ==>
              (fate(dials) == Gone && Retried(clock, fate, dials)) || (dials > 0 && fate(dials - 1) == GoneMeanwhile)
    ensures ending == ReplayLost ==>
              fate(dials) == Overflowed && Spent(clock, dials) <= RESUME_WINDOW_MS && Retried(clock, fate, dials)
  {
    hide Spent, Backoff, Charge;
    var spent, backoff, attemptStarted, reading := 0, RESUME_BACKOFF_START_MS, clock(0), 1;
    dials := 0;
    NextPass(clock, 0);
    while true
      invariant attemptStarted == clock(2 * dials) && reading == 2 * dials + 1
      invariant backoff == Backoff(dials)
      invariant spent + Charge(clock, dials) == Spent(clock, dials)
      invariant dials <= 44
      invariant Retried(clock, fate, dials)
      decreases 44 - dials
    {
      var charge := Min(Monus(clock(reading), attemptStarted), RESUME_ATTEMPT_CAP_MS);
      assert charge == Charge(clock, dials) by {
        ChargeIs(clock, dials);
      }
      spent := spent + charge;
      attemptStarted := clock(reading + 1);
      reading := reading + 2;
      WindowLastsBetween(clock, dials);
      if fate(dials) == Gone {
        return dials, Retired;
      }
      if fate(dials) == StandsDown {
        return dials, Stalled;
      }
      if spent > RESUME_WINDOW_MS {
        return dials, BudgetSpent;
      }
      if fate(dials) == Overflowed {
        return dials, ReplayLost;
      }
      dials := dials + 1;
      match fate(dials - 1) {
        case Resumes => return dials, Resumed;
        case Refuses => return dials, Refused;
        case GoneMeanwhile => return dials, Retired;
        case Retry =>
      }
      NextPass(clock, dials - 1);
      spent := spent + backoff;
      backoff := Min(backoff * 2, RESUME_BACKOFF_CAP_MS);
    }
  }

  /** Both bounds are met: by a clock that never advances and by one that jumps past the cap at each pass. */
  lemma BoundsAreTight(frozen: nat -> nat, leaping: nat -> nat)
    requires forall i :: frozen(i) == 0
    requires forall i :: leaping(i) == RESUME_ATTEMPT_CAP_MS * i
    ensures Spent(frozen, 43) <= RESUME_WINDOW_MS < Spent(frozen, 44)
    ensures Spent(leaping, 18) <= RESUME_WINDOW_MS < Spent(leaping, 19)
  {
    FrozenSpent(frozen, 43);
    LeapingSpent(leaping, 19);
    AskedIs(43);
    AskedIs(19);
    WindowLastsBetween(frozen, 44);
    WindowLastsBetween(leaping, 18);
  }

  lemma {:induction false} FrozenSpent(clock: nat -> nat, n: nat)
    requires forall i :: clock(i) == 0
    ensures Spent(clock, n) == Asked(n)
  {
    if n == 0 {
    } else {
      FrozenSpent(clock, n - 1);
    }
  }

  lemma {:induction false} LeapingSpent(clock: nat -> nat, n: nat)
    requires forall i :: clock(i) == RESUME_ATTEMPT_CAP_MS * i
    ensures Spent(clock, n) == Asked(n) + RESUME_ATTEMPT_CAP_MS * (n + 1)
  {
    if n == 0 {
    } else {
      LeapingSpent(clock, n - 1);
    }
  }
}
