/**
 * The bounded poll that follows every asynchronous backend create.
 *
 * A ticker fires every `TickMs` and a one-shot timer fires at `DeadlineMs`.
 * On each tick the driver pulls the resource: a failed pull is skipped, a pull
 * whose status is no longer "creating" ends the poll and its status replaces
 * the one the create call returned. When the deadline fires first the poll
 * ends and the status is left as the create call returned it.
 *
 * Time is counted in ticks: tick k (k >= 1) fires at k * TickMs, so exactly
 * `MaxTicks` ticks fire before the deadline. Every pull is taken to return
 * before the next tick fires. The backend's answers are the function `pull`:
 * `pull(k)` is the outcome of the pull on tick k + 1.
 */
module Reconcile {
  import opened Common
  import opened Model

  const TickMs: nat := 300
  const DeadlineMs: nat := 10000
  /** The number of ticks that fire strictly before the deadline. */
  const MaxTicks: nat := (DeadlineMs - 1) / TickMs
  /** The one non-terminal status. */
  const Creating: string := "creating"

  datatype PullOutcome = PullFailed | Observed(status: string)

  /** A pull that ends the poll: it succeeded and the resource is no longer being created. */
  predicate Terminal(o: PullOutcome)
  {
    o.Observed? && o.status != Creating
  }

  /** What one poll tick sees of a pulled share: a failed Get, or the share's status. */
  function ShareObservation(r: Result<FileShareSpec>): PullOutcome
  {
    if r.Failure? then PullFailed else Observed(r.value.status)
  }

  /** What one poll tick sees of a pulled snapshot. */
  function SnapshotObservation(r: Result<FileShareSnapshotSpec>): PullOutcome
  {
    if r.Failure? then PullFailed else Observed(r.value.status)
  }

  /** The final status handed back to the driver and the number of pulls made. */
  datatype Settlement = Settlement(status: string, pulls: nat)

  /** The index of the first terminal pull in [from, limit), or `limit` when there is none. */
  function FirstTerminal(pull: nat -> PullOutcome, from: nat, limit: nat): (k: nat)
    requires from <= limit
    ensures from <= k <= limit
    ensures k < limit ==> Terminal(pull(k))
    ensures forall j :: from <= j < k ==> !Terminal(pull(j))
    decreases limit - from
  {
    if from == limit then limit
    else if Terminal(pull(from)) then from
    else FirstTerminal(pull, from + 1, limit)
  }

  /** What a poll of at most `limit` ticks settles on. */
  function Settle(initial: string, pull: nat -> PullOutcome, limit: nat): Settlement
  {
    var k := FirstTerminal(pull, 0, limit);
    if k < limit then Settlement(pull(k).status, k + 1) else Settlement(initial, limit)
  }

  /** The poll loop: one pull per tick until a terminal status or the last tick before the deadline. */
  method Poll(initial: string, pull: nat -> PullOutcome, limit: nat) returns (r: Settlement)
    ensures r == Settle(initial, pull, limit)
  {
    var status := initial;
    var ticks: nat := 0;
    var done := false;
    while !done && ticks < limit
      invariant ticks <= limit
      invariant !done ==> status == initial && FirstTerminal(pull, 0, limit) == FirstTerminal(pull, ticks, limit)
      invariant done ==> 0 < ticks && FirstTerminal(pull, 0, limit) == ticks - 1 && status == pull(ticks - 1).status
      decreases limit - ticks
    {
      var o := pull(ticks);
      ticks := ticks + 1;
      if o.PullFailed? {
        continue;
      }
      if o.status != Creating {
        status := o.status;
        done := true;
      }
    }
    r := Settlement(status, ticks);
  }

  /** Exactly `MaxTicks` = 33 ticks fire before the 10 s deadline; the 34th would fire after it. */
  lemma MaxTicksBeforeDeadline()
    ensures MaxTicks == 33
    ensures MaxTicks * TickMs < DeadlineMs <= (MaxTicks + 1) * TickMs
  {
  }

  /** The poll never makes more pulls than ticks fire before the deadline, and makes at least one. */
  lemma SettleBounded(initial: string, pull: nat -> PullOutcome, limit: nat)
    ensures 0 < limit ==> 1 <= Settle(initial, pull, limit).pulls
    ensures Settle(initial, pull, limit).pulls <= limit
  {
  }

  /** With the real deadline the poll stays within the bound deadline / interval + 1 pulls and returns before the deadline. */
  lemma SettleWithinDeadline(initial: string, pull: nat -> PullOutcome)
    ensures Settle(initial, pull, MaxTicks).pulls <= DeadlineMs / TickMs + 1
    ensures Settle(initial, pull, MaxTicks).pulls * TickMs < DeadlineMs
  {
    MaxTicksBeforeDeadline();
    SettleBounded(initial, pull, MaxTicks);
  }

  /** A terminal pull on tick k + 1, after only failed or "creating" pulls, ends the poll there: no further pull happens. */
  lemma SettleEarlyExit(initial: string, pull: nat -> PullOutcome, limit: nat, k: nat)
    requires k < limit
    requires Terminal(pull(k))
    requires forall j :: 0 <= j < k ==> !Terminal(pull(j))
    ensures Settle(initial, pull, limit) == Settlement(pull(k).status, k + 1)
  {
  }

  /** When no pull before the deadline is terminal, every tick is used and the status is the create call's. */
  lemma SettleTimeout(initial: string, pull: nat -> PullOutcome, limit: nat)
    requires forall j :: 0 <= j < limit ==> !Terminal(pull(j))
    ensures Settle(initial, pull, limit) == Settlement(initial, limit)
  {
  }

  /**
   * The settled status is either the create call's own, or the status of the
   * last pull made, which is terminal; the two cases are not told apart.
   */
  lemma SettleStatusOrigin(initial: string, pull: nat -> PullOutcome, limit: nat)
    ensures var r := Settle(initial, pull, limit);
      r.status == initial || (0 < r.pulls && pull(r.pulls - 1) == Observed(r.status) && r.status != Creating)
  {
  }

  /** A failed pull is skipped: it has the same effect on the poll as a pull that still reads "creating". */
  lemma {:induction false} FailedPullIsSkipped(pull: nat -> PullOutcome, pull': nat -> PullOutcome, j: nat, from: nat, limit: nat)
    requires from <= limit
    requires pull(j) == PullFailed && pull'(j) == Observed(Creating)
    requires forall i :: i != j ==> pull'(i) == pull(i)
    ensures FirstTerminal(pull', from, limit) == FirstTerminal(pull, from, limit)
    decreases limit - from
  {
    if from < limit {
      FailedPullIsSkipped(pull, pull', j, from + 1, limit);
    }
  }

  /** A resource already available on the first pull settles after exactly one pull. */
  lemma ImmediatelyAvailable(initial: string, pull: nat -> PullOutcome)
    requires pull(0) == Observed("available")
    ensures Settle(initial, pull, MaxTicks) == Settlement("available", 1)
  {
    MaxTicksBeforeDeadline();
  }

  /** A resource that stays "creating" is polled on every tick before the deadline and keeps its create status. */
  lemma AlwaysCreating(initial: string, pull: nat -> PullOutcome)
    requires forall j :: pull(j) == Observed(Creating)
    ensures Settle(initial, pull, MaxTicks) == Settlement(initial, MaxTicks)
    ensures MaxTicks <= DeadlineMs / TickMs + 1
  {
    SettleTimeout(initial, pull, MaxTicks);
    MaxTicksBeforeDeadline();
  }
}
