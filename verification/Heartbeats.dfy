/**
 The heartbeat budget: although old attempts are pruned, no 24-hour window exceeds
 the daily limit, sequences never repeat, and attempts of one outage stay apart.
 */
module Heartbeats {
  import opened Prelude
  import opened EdgeModel
  import opened EdgeTransactions
  import opened SmsLimits

  datatype HeartbeatConfig = HeartbeatConfig(interval: int, dailyLimit: int)

  datatype HeartbeatState = HeartbeatState(lastSuccess: Option<int>, lastAttempt: Option<int>, lastFailed: bool, lastDay: nat)

  function StateAt(db: EdgeDb, now: int): HeartbeatState {
    var n := |db.heartbeats|;
    HeartbeatState(db.sync.lastSuccess,
                   if n == 0 then None else Some(db.heartbeats[n - 1].at),
                   n > 0 && db.heartbeats[n - 1].succeeded == Some(false),
                   HeartbeatsSince(db.heartbeats, now - DAY))
  }

  predicate Due(cfg: SmsConfig, hb: HeartbeatConfig, state: HeartbeatState, startedAt: int, now: int) {
    var offlineSince := if state.lastSuccess.Some? then state.lastSuccess.value else startedAt;
    && now - offlineSince >= cfg.offlineAfter
    && state.lastDay < hb.dailyLimit
    && (|| state.lastAttempt.None?
        || (state.lastSuccess.Some? && state.lastAttempt.value <= state.lastSuccess.value)
        || now - state.lastAttempt.value >= (if state.lastFailed then Least(hb.interval, cfg.retryInterval) else hb.interval))
  }

  function Least(a: int, b: int): (m: int)
    ensures m <= a && m <= b && (m == a || m == b)
  {
    if a <= b then a else b
  }

  // ---- The machine ----

  /** log lists every reservation ever made, keyed by its sequence; outages[i] is the last success known when log[i] was made. */
  datatype Beacon = Beacon(db: EdgeDb, startedAt: Option<int>, log: seq<Attempt>, outages: seq<Option<int>>)

  const INITIAL := Beacon(EMPTY_DB, None, [], [])

  datatype BeatStep =
    | PollStep(now: int)
    | RecordStep(sequence: nat, succeeded: bool)
    | CrashStep
    | StoreStep(to: EdgeDb)

  function Started(b: Beacon, now: int): int {
    if b.startedAt.Some? then b.startedAt.value else now
  }

  ghost function Apply(cfg: SmsConfig, hb: HeartbeatConfig, b: Beacon, step: BeatStep): Beacon {
    match step
    case PollStep(now) =>
      var started := b.(startedAt := Some(Started(b, now)));
      if Due(cfg, hb, StateAt(b.db, now), Started(b, now), now) then Beat(started, now) else started
    case RecordStep(sequence, succeeded) => b.(db := RecordHeartbeat(b.db, sequence, succeeded))
    case CrashStep => b.(db := Reopen(b.db), startedAt := None)
    case StoreStep(to) =>
      if to.heartbeats == b.db.heartbeats && to.lastHeartbeat == b.db.lastHeartbeat then b.(db := to) else b
  }

  function Beat(b: Beacon, now: int): Beacon {
    var db := ReserveHeartbeat(b.db, now);
    b.(db := db, log := b.log + [Attempt(db.lastHeartbeat, now, None)], outages := b.outages + [b.db.sync.lastSuccess])
  }

  ghost function Run(cfg: SmsConfig, hb: HeartbeatConfig, steps: seq<BeatStep>): Beacon {
    if steps == [] then INITIAL
    else Apply(cfg, hb, Run(cfg, hb, steps[..|steps| - 1]), steps[|steps| - 1])
  }

  // ---- The invariant ----

  ghost predicate Numbered(log: seq<Attempt>, last: nat) {
    && (forall i | 0 <= i < |log| :: log[i].key <= last)
    && (forall i, j | 0 <= i < j < |log| :: log[i].key < log[j].key)
  }

  ghost predicate BeyondPruning(log: seq<Attempt>, since: int) {
    forall i | 0 <= i < |log| :: log[i].at - HEARTBEAT_RETENTION <= since
  }

  /** Pruning is invisible to every count that does not reach further back than the retention. */
  ghost predicate CountsAgree(table: seq<HeartbeatAttempt>, log: seq<Attempt>) {
    forall since: int | BeyondPruning(log, since) :: HeartbeatsSince(table, since) == CountSince(log, since)
  }

  ghost predicate LatestKept(table: seq<HeartbeatAttempt>, log: seq<Attempt>) {
    && (table == [] <==> log == [])
    && (log != [] ==> table[|table| - 1].at == log[|log| - 1].at)
  }

  /** Two successive reservations that knew the same last success belong to one outage. */
  ghost predicate Apart(log: seq<Attempt>, outages: seq<Option<int>>, gap: int) {
    && |outages| == |log|
    && (forall i | 0 <= i < |log| :: outages[i].Some? ==> outages[i].value < log[i].at)
    && (forall i | 0 < i < |log| && outages[i] == outages[i - 1] :: log[i].at >= log[i - 1].at + gap)
  }

  /** Whatever the clock did, reservations were made in time order. */
  ghost predicate InTimeOrder(log: seq<Attempt>) {
    forall i, j | 0 <= i < j < |log| :: log[i].at <= log[j].at
  }

  /** What the configuration loader demands: no negative wait and a positive outage delay. */
  predicate Waits(cfg: SmsConfig, hb: HeartbeatConfig) {
    cfg.offlineAfter > 0 && cfg.retryInterval >= 0 && hb.interval >= 0
  }

  ghost predicate Inv(cfg: SmsConfig, hb: HeartbeatConfig, b: Beacon) {
    && InTimeOrder(b.log)
    && Numbered(b.log, b.db.lastHeartbeat)
    && CountsAgree(b.db.heartbeats, b.log)
    && LatestKept(b.db.heartbeats, b.log)
    && Limited(b.log, DAY, hb.dailyLimit)
    && Apart(b.log, b.outages, Least(hb.interval, cfg.retryInterval))
  }

  lemma {:induction false} PruningIsInvisible(table: seq<HeartbeatAttempt>, cutoff: int, since: int)
    requires cutoff <= since
    ensures HeartbeatsSince(PruneBefore(table, cutoff), since) == HeartbeatsSince(table, since)
  {
    if table != [] {
      var rest, last := table[..|table| - 1], table[|table| - 1];
      PruningIsInvisible(rest, cutoff, since);
      var kept := PruneBefore(rest, cutoff);
      if last.at < cutoff {
        assert PruneBefore(table, cutoff) == kept;
      } else {
        assert PruneBefore(table, cutoff) == kept + [last];
        assert (kept + [last])[..|kept|] == kept;
      }
    }
  }

  lemma BeatKeepsCounts(b: Beacon, now: int)
    requires CountsAgree(b.db.heartbeats, b.log)
    ensures CountsAgree(Beat(b, now).db.heartbeats, Beat(b, now).log)
  {
    var b' := Beat(b, now);
    var pruned := PruneBefore(b.db.heartbeats, now - HEARTBEAT_RETENTION);
    forall since: int | BeyondPruning(b'.log, since) ensures HeartbeatsSince(b'.db.heartbeats, since) == CountSince(b'.log, since) {
      assert b'.log[|b.log|].at == now;
      assert forall i | 0 <= i < |b.log| :: b'.log[i] == b.log[i];
      assert BeyondPruning(b.log, since);
      PruningIsInvisible(b.db.heartbeats, now - HEARTBEAT_RETENTION, since);
      assert b'.db.heartbeats[..|pruned|] == pruned;
      CountsAfterReserve(b.log, b'.log[|b.log|], since, 0);
    }
  }

  /** A due heartbeat never lies before the last one: the clock has to catch up first. */
  lemma DueAfterLast(cfg: SmsConfig, hb: HeartbeatConfig, b: Beacon, now: int)
    requires Inv(cfg, hb, b) && Waits(cfg, hb) && b.startedAt.Some?
    requires Due(cfg, hb, StateAt(b.db, now), b.startedAt.value, now)
    ensures forall i | 0 <= i < |b.log| :: b.log[i].at <= now
  {
    if b.log != [] {
      var last := b.log[|b.log| - 1].at;
      assert StateAt(b.db, now).lastAttempt == Some(last);
      assert last <= now;
    }
  }

  lemma BeatKeepsOrder(b: Beacon, now: int)
    requires InTimeOrder(b.log) && Numbered(b.log, b.db.lastHeartbeat)
    requires forall i | 0 <= i < |b.log| :: b.log[i].at <= now
    ensures var b' := Beat(b, now);
      InTimeOrder(b'.log) && Numbered(b'.log, b'.db.lastHeartbeat) && LatestKept(b'.db.heartbeats, b'.log)
  {
  }

  lemma BeatKeepsApart(cfg: SmsConfig, hb: HeartbeatConfig, b: Beacon, now: int)
    requires Inv(cfg, hb, b) && Waits(cfg, hb) && b.startedAt.Some?
    requires Due(cfg, hb, StateAt(b.db, now), b.startedAt.value, now)
    ensures var b' := Beat(b, now); Apart(b'.log, b'.outages, Least(hb.interval, cfg.retryInterval))
  {
    if b.log != [] {
      assert StateAt(b.db, now).lastAttempt == Some(b.log[|b.log| - 1].at);
    }
  }

  lemma BeatKeepsLimit(cfg: SmsConfig, hb: HeartbeatConfig, b: Beacon, now: int)
    requires CountsAgree(b.db.heartbeats, b.log) && Limited(b.log, DAY, hb.dailyLimit)
    requires forall i | 0 <= i < |b.log| :: b.log[i].at <= now
    requires StateAt(b.db, now).lastDay < hb.dailyLimit
    ensures Limited(Beat(b, now).log, DAY, hb.dailyLimit)
  {
    assert BeyondPruning(b.log, now - DAY);
    ReserveKeepsLimited(b.log, Attempt(b.db.lastHeartbeat + 1, now, None), DAY, hb.dailyLimit);
  }

  lemma BeatKeepsInv(cfg: SmsConfig, hb: HeartbeatConfig, b: Beacon, now: int)
    requires Inv(cfg, hb, b) && Waits(cfg, hb) && b.startedAt.Some?
    requires Due(cfg, hb, StateAt(b.db, now), b.startedAt.value, now)
    ensures Inv(cfg, hb, Beat(b, now))
  {
    DueAfterLast(cfg, hb, b, now);
    BeatKeepsCounts(b, now);
    BeatKeepsOrder(b, now);
    BeatKeepsApart(cfg, hb, b, now);
    BeatKeepsLimit(cfg, hb, b, now);
  }

  lemma {:induction false} RecordingCountsNothing(table: seq<HeartbeatAttempt>, table': seq<HeartbeatAttempt>, since: int)
    requires |table'| == |table| && forall i | 0 <= i < |table| :: table'[i].at == table[i].at
    ensures HeartbeatsSince(table', since) == HeartbeatsSince(table, since)
  {
    if table != [] {
      RecordingCountsNothing(table[..|table| - 1], table'[..|table| - 1], since);
    }
  }

  lemma StepKeepsInv(cfg: SmsConfig, hb: HeartbeatConfig, b: Beacon, step: BeatStep)
    requires Inv(cfg, hb, b) && Waits(cfg, hb)
    ensures Inv(cfg, hb, Apply(cfg, hb, b, step))
  {
    match step {
      case PollStep(now) =>
        if Due(cfg, hb, StateAt(b.db, now), Started(b, now), now) {
          BeatKeepsInv(cfg, hb, b.(startedAt := Some(Started(b, now))), now);
        }
      case RecordStep(sequence, succeeded) =>
        var table' := RecordHeartbeat(b.db, sequence, succeeded).heartbeats;
        forall since: int ensures HeartbeatsSince(table', since) == HeartbeatsSince(b.db.heartbeats, since) {
          RecordingCountsNothing(b.db.heartbeats, table', since);
        }
      case _ =>
    }
  }

  lemma {:induction false} RunKeepsInv(cfg: SmsConfig, hb: HeartbeatConfig, steps: seq<BeatStep>)
    requires Waits(cfg, hb)
    ensures Inv(cfg, hb, Run(cfg, hb, steps))
  {
    if steps != [] {
      RunKeepsInv(cfg, hb, steps[..|steps| - 1]);
      StepKeepsInv(cfg, hb, Run(cfg, hb, steps[..|steps| - 1]), steps[|steps| - 1]);
    }
  }

  /**
   Pruned or not, and whatever the clock does, no 24-hour window holds more reservations
   than the daily limit, no sequence is used twice, and reservations are in time order.
   */
  lemma {:induction false} HeartbeatLimits(cfg: SmsConfig, hb: HeartbeatConfig, steps: seq<BeatStep>, start: int)
    requires Waits(cfg, hb) && hb.dailyLimit >= 0
    ensures var log := Run(cfg, hb, steps).log;
      && CountIn(log, start, start + DAY) <= hb.dailyLimit
      && (forall i, j | 0 <= i < j < |log| :: log[i].key < log[j].key && log[i].at <= log[j].at)
  {
    RunKeepsInv(cfg, hb, steps);
    LimitedWindow(Run(cfg, hb, steps).log, DAY, hb.dailyLimit, start);
  }

  lemma {:induction false} HeartbeatsOfOneOutageApart(cfg: SmsConfig, hb: HeartbeatConfig, steps: seq<BeatStep>, i: nat)
    requires Waits(cfg, hb)
    requires var b := Run(cfg, hb, steps); 0 < i < |b.log| && i < |b.outages| && b.outages[i] == b.outages[i - 1]
    ensures var log := Run(cfg, hb, steps).log;
      log[i].at - log[i - 1].at >= Least(hb.interval, cfg.retryInterval)
  {
    RunKeepsInv(cfg, hb, steps);
  }

  // ---- The other transactions ----

  /** Whatever the store commits beside heartbeats is a StoreStep of the machine, or its crash. */
  lemma OtherTransactionsAreFrames(cfg: Config, db: EdgeDb, tx: Transaction)
    requires !tx.BeatTx? && !tx.BeatDoneTx?
    ensures Commit(cfg, db, tx).heartbeats == db.heartbeats && Commit(cfg, db, tx).lastHeartbeat == db.lastHeartbeat
  {
  }

  lemma {:induction false} RunExtends(cfg: SmsConfig, hb: HeartbeatConfig, steps: seq<BeatStep>, step: BeatStep)
    ensures Run(cfg, hb, steps + [step]) == Apply(cfg, hb, Run(cfg, hb, steps), step)
  {
    assert (steps + [step])[..|steps|] == steps;
  }
}
