/** Termination and fairness of the outbox: a potential that every claim uses up, so claims are
    bounded, and a due action waits for a bounded number of other claims. */
module Progress {
  import opened Domain
  import opened Outbox
  import opened Database
  import opened Protocol
  import opened Invariants

  // ---- The potential -----------------------------------------------------------------------------

  /** The claims a row can still get: its remaining attempts while live, one less while it is
      executing, none when terminal. */
  function Budget(cfg: Config, row: Row): nat {
    var used := row.attempts + if row.status == Executing then 1 else 0;
    if IsTerminal(row) || used > AttemptLimit(cfg) then 0 else AttemptLimit(cfg) - used
  }

  /** In a reachable state: all attempts the settings allow, less those recorded and one that is
      being made. */
  lemma BudgetIs(cfg: Config, row: Row, now: int)
    requires RowOk(cfg, row, now)
    ensures Budget(cfg, row) == if row.status in {Sent, PermanentFailure, BlockedByPolicy, Superseded} then 0
                                else (if cfg.maxAttempts >= 1 then cfg.maxAttempts else 1) - row.attempts
                                     - (if row.status == Executing then 1 else 0)
  {
  }

  /** Whether a row was created no later than the cutoff; no cutoff takes every row. */
  predicate Early(row: Row, cutoff: Option<int>) {
    cutoff.Some? ==> row.createdAt <= cutoff.value
  }

  function Share(cfg: Config, row: Row, cutoff: Option<int>): nat {
    if Early(row, cutoff) then Budget(cfg, row) else 0
  }

  /** The remaining claims of all rows created no later than the cutoff. */
  function Potential(cfg: Config, rows: seq<Row>, cutoff: Option<int>): nat {
    if rows == [] then 0
    else Potential(cfg, rows[..|rows| - 1], cutoff) + Share(cfg, rows[|rows| - 1], cutoff)
  }

  lemma {:induction false} PotentialUpdate(cfg: Config, rows: seq<Row>, i: nat, row: Row, cutoff: Option<int>)
    requires i < |rows|
    ensures Potential(cfg, rows[i := row], cutoff) + Share(cfg, rows[i], cutoff)
            == Potential(cfg, rows, cutoff) + Share(cfg, row, cutoff)
  {
    var n := |rows| - 1;
    if i == n {
      assert rows[i := row][..n] == rows[..n];
    } else {
      PotentialUpdate(cfg, rows[..n], i, row, cutoff);
      assert rows[i := row][..n] == rows[..n][i := row];
    }
  }

  lemma {:induction false} PotentialCovers(cfg: Config, rows: seq<Row>, i: nat, cutoff: Option<int>)
    requires i < |rows| && Early(rows[i], cutoff)
    ensures Potential(cfg, rows, cutoff) >= Budget(cfg, rows[i])
  {
    if i < |rows| - 1 {
      PotentialCovers(cfg, rows[..|rows| - 1], i, cutoff);
    }
  }

  // ---- Claims and inserts of a run ---------------------------------------------------------------

  function ClaimCost(rows: seq<Row>, act: Act, cutoff: Option<int>): nat {
    if act.Claim? && act.row < |rows| && Early(rows[act.row], cutoff) then 1 else 0
  }

  function BroughtBy(cfg: Config, rows: seq<Row>, rows': seq<Row>, cutoff: Option<int>): nat {
    if |rows'| > |rows| && Early(rows'[|rows|], cutoff) then AttemptLimit(cfg) else 0
  }

  /** Claims on rows created no later than the cutoff. */
  function Claims(cfg: Config, run: Run, cutoff: Option<int>): nat
    requires IsRun(cfg, run)
  {
    if run.Begin? then 0
    else Claims(cfg, run.before, cutoff) + ClaimCost(Last(cfg, run.before).db.outbox, run.act, cutoff)
  }

  /** The attempts that rows inserted during the run, created no later than the cutoff, bring. */
  function Brought(cfg: Config, run: Run, cutoff: Option<int>): nat
    requires IsRun(cfg, run)
  {
    if run.Begin? then 0
    else Brought(cfg, run.before, cutoff)
         + BroughtBy(cfg, Last(cfg, run.before).db.outbox, Last(cfg, run).db.outbox, cutoff)
  }

  lemma ClaimBudget(cfg: Config, row: Row, now: int)
    requires RowOk(cfg, row, now) && IsLive(row)
    ensures Budget(cfg, row) == Budget(cfg, Claimed(row)) + 1
  {
  }

  lemma ClaimPotential(cfg: Config, rows: seq<Row>, i: nat, now: int, cutoff: Option<int>)
    requires i < |rows| && RowOk(cfg, rows[i], now) && IsLive(rows[i])
    ensures Potential(cfg, rows[i := Claimed(rows[i])], cutoff) + (if Early(rows[i], cutoff) then 1 else 0)
            == Potential(cfg, rows, cutoff)
  {
    ClaimBudget(cfg, rows[i], now);
    PotentialUpdate(cfg, rows, i, Claimed(rows[i]), cutoff);
  }

  lemma ClaimStepPotential(cfg: Config, s: Sys, act: Act, at: int, cutoff: Option<int>)
    requires RowsOk(cfg, s) && act.Claim? && Enabled(cfg, s, act, at)
    ensures Potential(cfg, Next(cfg, s, act, at).db.outbox, cutoff)
            + (if Early(s.db.outbox[act.row], cutoff) then 1 else 0)
            == Potential(cfg, s.db.outbox, cutoff)
  {
    assert RowOk(cfg, s.db.outbox[act.row], s.now);
    ClaimPotential(cfg, s.db.outbox, act.row, s.now, cutoff);
  }

  lemma MarkStepPotential(cfg: Config, s: Sys, act: Act, at: int, cutoff: Option<int>)
    requires RowsOk(cfg, s) && OwnershipOk(s) && act.Mark? && Enabled(cfg, s, act, at)
    ensures Potential(cfg, Next(cfg, s, act, at).db.outbox, cutoff) <= Potential(cfg, s.db.outbox, cutoff)
  {
    var h := s.workers[act.w];
    var row := s.db.outbox[h.row];
    assert HolderOk(s, act.w) && RowOk(cfg, row, s.now);
    PotentialUpdate(cfg, s.db.outbox, h.row, MarkedRow(cfg, row, h, at), cutoff);
  }

  lemma OtherStepPotential(cfg: Config, s: Sys, act: Act, at: int, cutoff: Option<int>)
    requires Enabled(cfg, s, act, at) && !act.Claim? && !act.Mark?
    ensures var rows, rows' := s.db.outbox, Next(cfg, s, act, at).db.outbox;
            Potential(cfg, rows', cutoff) <= Potential(cfg, rows, cutoff) + BroughtBy(cfg, rows, rows', cutoff)
  {
    hide Next, Enabled;
    var rows, rows' := s.db.outbox, Next(cfg, s, act, at).db.outbox;
    InsertedRow(cfg, s, act, at);
    if |rows'| > |rows| {
      assert rows'[..|rows|] == rows;
    }
  }

  /** One step: a claim uses up exactly one unit, an insert brings its own, and nothing else
      adds to the potential. */
  lemma PotentialStep(cfg: Config, s: Sys, act: Act, at: int, cutoff: Option<int>)
    requires RowsOk(cfg, s) && OwnershipOk(s) && Enabled(cfg, s, act, at)
    ensures var rows, rows' := s.db.outbox, Next(cfg, s, act, at).db.outbox;
            && Potential(cfg, rows', cutoff) + ClaimCost(rows, act, cutoff)
               <= Potential(cfg, rows, cutoff) + BroughtBy(cfg, rows, rows', cutoff)
            && (act.Claim? ==>
                  Potential(cfg, rows', cutoff) + ClaimCost(rows, act, cutoff) == Potential(cfg, rows, cutoff))
  {
    if act.Claim? {
      ClaimStepPotential(cfg, s, act, at, cutoff);
    } else if act.Mark? {
      MarkStepPotential(cfg, s, act, at, cutoff);
    } else {
      OtherStepPotential(cfg, s, act, at, cutoff);
    }
  }

  lemma {:induction false} ClaimsUsePotential(cfg: Config, run: Run, cutoff: Option<int>)
    requires IsRun(cfg, run) && Inv(cfg, First(run))
    ensures Claims(cfg, run, cutoff) + Potential(cfg, Last(cfg, run).db.outbox, cutoff)
            <= Potential(cfg, First(run).db.outbox, cutoff) + Brought(cfg, run, cutoff)
  {
    if run.Then? {
      ClaimsUsePotential(cfg, run.before, cutoff);
      InvHolds(cfg, run.before);
      PotentialStep(cfg, Last(cfg, run.before), run.act, run.at, cutoff);
    }
  }

  /** Between two states of a run with the same number of rows, the claims number at most what
      the potential has dropped by. */
  lemma {:induction false} ClaimsSince(cfg: Config, early: Run, run: Run)
    requires IsRun(cfg, early) && IsRunFromStart(cfg, run) && IsPrefix(early, run)
    ensures |Last(cfg, early).db.outbox| <= |Last(cfg, run).db.outbox|
    ensures |Last(cfg, early).db.outbox| == |Last(cfg, run).db.outbox| ==>
              Claims(cfg, run, None) + Potential(cfg, Last(cfg, run).db.outbox, None)
              <= Claims(cfg, early, None) + Potential(cfg, Last(cfg, early).db.outbox, None)
  {
    hide Next, Enabled;
    if early != run {
      ClaimsSince(cfg, early, run.before);
      InvHolds(cfg, run.before);
      InsertedRow(cfg, Last(cfg, run.before), run.act, run.at);
      PotentialStep(cfg, Last(cfg, run.before), run.act, run.at, None);
    }
  }

  // ---- Drain -------------------------------------------------------------------------------------

  predicate InsertsNothing(run: Run) {
    run.Then? ==> !run.act.RunWorkflow? && InsertsNothing(run.before)
  }

  /** Without new inserts the claims of a run, crashes and retries included, number at most what
      the potential has dropped by: never more than the remaining attempts at its start. */
  lemma {:induction false} DrainTerminates(cfg: Config, run: Run)
    requires IsRun(cfg, run) && Inv(cfg, First(run)) && InsertsNothing(run)
    ensures Claims(cfg, run, None) + Potential(cfg, Last(cfg, run).db.outbox, None)
            <= Potential(cfg, First(run).db.outbox, None)
  {
    ClaimsUsePotential(cfg, run, None);
    NothingBrought(cfg, run);
  }

  lemma {:induction false} NothingBrought(cfg: Config, run: Run)
    requires IsRun(cfg, run) && InsertsNothing(run)
    ensures Brought(cfg, run, None) == 0
  {
    if run.Then? {
      NothingBrought(cfg, run.before);
    }
  }

  // ---- Sleeping ----------------------------------------------------------------------------------

  /** Since the run was `early`, row `i` has failed retryably. */
  ghost predicate RetriedSince(cfg: Config, early: Run, run: Run, i: nat) {
    && run != early && run.Then? && IsRun(cfg, run)
    && ((run.act.Mark? && RowOf(cfg, run) == Some(i) && i < |Last(cfg, run).db.outbox|
         && Last(cfg, run).db.outbox[i].status == RetryableFailure)
        || RetriedSince(cfg, early, run.before, i))
  }

  lemma {:induction false} UnchangedOrGone(cfg: Config, early: Run, run: Run, i: nat)
    requires IsRun(cfg, early) && IsRunFromStart(cfg, run) && IsPrefix(early, run)
    requires i < |Last(cfg, early).db.outbox| && !RetriedSince(cfg, early, run, i)
    ensures i < |Last(cfg, run).db.outbox|
    ensures Last(cfg, run).db.outbox[i] == Last(cfg, early).db.outbox[i] || !IsLive(Last(cfg, run).db.outbox[i])
    ensures Last(cfg, early).now <= Last(cfg, run).now
  {
    hide Next, Enabled;
    if early != run {
      UnchangedOrGone(cfg, early, run.before, i);
      InvHolds(cfg, run.before);
      LiveAgain(cfg, Last(cfg, run.before), run.act, run.at, i);
      StepTime(cfg, Last(cfg, run.before), run.act, run.at);
    }
  }

  lemma StepTime(cfg: Config, s: Sys, act: Act, at: int)
    requires Enabled(cfg, s, act, at)
    ensures Next(cfg, s, act, at).now == at
  {
  }

  /** A notified worker computes its wait and sleeps while the others go on. A row that falls due
      before it wakes is news: it was queued meanwhile, which notifies the worker, or it failed
      meanwhile in the hands of another one, which does not. */
  lemma SleepMissesOnlyNews(cfg: Config, early: Run, run: Run, fallback: int, i: nat)
    requires IsRun(cfg, early) && IsRunFromStart(cfg, run) && IsPrefix(early, run)
    requires Last(cfg, run).now < Last(cfg, early).now
               + WaitTime(true, Last(cfg, early).db.outbox, Last(cfg, early).now, cfg.replyDelay, fallback)
    requires i < |Last(cfg, run).db.outbox| && Due(Last(cfg, run).db.outbox[i], Last(cfg, run).now, cfg.replyDelay)
    ensures i >= |Last(cfg, early).db.outbox| || RetriedSince(cfg, early, run, i)
  {
    hide Next, Enabled, RetriedSince, WaitTime;
    if i < |Last(cfg, early).db.outbox| && !RetriedSince(cfg, early, run, i) {
      UnchangedOrGone(cfg, early, run, i);
      SleepMissesNothing(Last(cfg, early).db.outbox, Last(cfg, early).now, cfg.replyDelay, fallback, Last(cfg, run).now);
    }
  }

  // ---- Bounded waiting ---------------------------------------------------------------------------

  predicate NotClaimed(run: Run, x: nat) {
    run.Then? ==> !(run.act.Claim? && run.act.row == x) && NotClaimed(run.before, x)
  }

  /** While a due row waits it does not change and stays due. */
  lemma {:induction false} StaysDue(cfg: Config, run: Run, x: nat)
    requires IsRun(cfg, run) && Inv(cfg, First(run)) && NotClaimed(run, x)
    requires x < |First(run).db.outbox| && Due(First(run).db.outbox[x], First(run).now, cfg.replyDelay)
    ensures x < |Last(cfg, run).db.outbox| && Last(cfg, run).db.outbox[x] == First(run).db.outbox[x]
    ensures First(run).now <= Last(cfg, run).now
  {
    if run.Then? {
      StaysDue(cfg, run.before, x);
      InvHolds(cfg, run.before);
      RowStep(cfg, Last(cfg, run.before), run.act, run.at, x);
    }
  }

  /** While a due row waits every claim is on a row created no later. */
  lemma {:induction false} ClaimsAreEarlier(cfg: Config, run: Run, x: nat)
    requires IsRun(cfg, run) && Inv(cfg, First(run)) && NotClaimed(run, x)
    requires x < |First(run).db.outbox| && Due(First(run).db.outbox[x], First(run).now, cfg.replyDelay)
    ensures Claims(cfg, run, None) == Claims(cfg, run, Some(First(run).db.outbox[x].createdAt))
  {
    if run.Then? {
      ClaimsAreEarlier(cfg, run.before, x);
      StaysDue(cfg, run.before, x);
      if run.act.Claim? {
        assert Due(Last(cfg, run.before).db.outbox[x], run.at, cfg.replyDelay);
      }
    }
  }

  /** From the moment an action is due until it is claimed, the claims on all other rows number
      at most the remaining attempts of the other rows created no later, even with retries
      rejoining ahead of it; a row inserted meanwhile counts only if it carries a creation time
      no later than the action's. */
  lemma BoundedWaiting(cfg: Config, run: Run, x: nat)
    requires IsRun(cfg, run) && Inv(cfg, First(run)) && NotClaimed(run, x)
    requires x < |First(run).db.outbox| && Due(First(run).db.outbox[x], First(run).now, cfg.replyDelay)
    ensures var row := First(run).db.outbox[x];
            var cutoff := Some(row.createdAt);
            && Claims(cfg, run, None) + Budget(cfg, row)
               <= Potential(cfg, First(run).db.outbox, cutoff) + Brought(cfg, run, cutoff)
            && (First(run).now > row.createdAt ==> Brought(cfg, run, cutoff) == 0)
  {
    var row := First(run).db.outbox[x];
    var cutoff := Some(row.createdAt);
    ClaimsAreEarlier(cfg, run, x);
    ClaimsUsePotential(cfg, run, cutoff);
    StaysDue(cfg, run, x);
    PotentialCovers(cfg, Last(cfg, run).db.outbox, x, cutoff);
    if First(run).now > row.createdAt {
      LateInsertsDoNotCount(cfg, run, row.createdAt);
    }
  }

  lemma {:induction false} LateInsertsDoNotCount(cfg: Config, run: Run, cutoff: int)
    requires IsRun(cfg, run) && First(run).now > cutoff
    ensures Brought(cfg, run, Some(cutoff)) == 0 && Last(cfg, run).now > cutoff
  {
    if run.Then? {
      LateInsertsDoNotCount(cfg, run.before, cutoff);
      InsertedRow(cfg, Last(cfg, run.before), run.act, run.at);
    }
  }
}
