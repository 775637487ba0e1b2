/** Draining the durable queue: batches, replies, retries, and why a drain ends. */
module Uploader {
  import opened Prelude
  import opened EdgeModel
  import opened EdgeStore

  datatype UploadConfig = UploadConfig(batchSize: nat, batchMaxBytes: int, baseDelay: int, maxDelay: int, maxRetries: int)
  {
    /** What the constructor's defaults establish. */
    predicate Valid() {
      batchSize > 0 && batchMaxBytes > 0 && baseDelay > 0 && maxDelay > 0 && maxRetries > 0
    }
  }

  datatype RecordError = RecordError(sequence: nat, code: string, message: string)

  /** A request fails as a whole, or its response accounts for records one by one. */
  datatype Reply = RequestFailed(cause: string) | Decoded(accepted: seq<nat>, rejected: seq<RecordError>)

  /** The clock as one round reads it: when the batch is chosen, when it is sent, and when its outcome is recorded. */
  datatype Times = Times(ready: int, sent: int, failed: int)

  const OMITTED := "invalid ingestion response: sequence was neither accepted nor rejected"

  function Pow2(n: nat): (p: nat)
    ensures p >= 1
  {
    if n == 0 then 1 else 2 * Pow2(n - 1)
  }

  /** Exponential backoff up to a ceiling. */
  function RetryTime(cfg: UploadConfig, attempts: nat, now: int): int {
    var delay := cfg.baseDelay * Pow2(attempts);
    now + (if delay > cfg.maxDelay then cfg.maxDelay else delay)
  }

  function Smaller(a: int, b: int): int {
    if a < b then a else b
  }

  /** The delay starts at the base and doubles with every attempt until it stays at the ceiling. */
  lemma RetryDoubles(cfg: UploadConfig, attempts: nat, now: int)
    requires cfg.Valid()
    ensures RetryTime(cfg, 0, now) - now == Smaller(cfg.baseDelay, cfg.maxDelay)
    ensures RetryTime(cfg, attempts + 1, now) - now == Smaller(2 * (RetryTime(cfg, attempts, now) - now), cfg.maxDelay)
  {
    assert Pow2(0) == 1;
    assert cfg.baseDelay * Pow2(attempts + 1) == 2 * (cfg.baseDelay * Pow2(attempts));
  }

  lemma RetryIsLater(cfg: UploadConfig, attempts: nat, now: int)
    requires cfg.Valid()
    ensures now < RetryTime(cfg, attempts, now) <= now + cfg.maxDelay
  {
    assert cfg.baseDelay * Pow2(attempts) >= 1;
  }

  /** The last rejection naming s, as text; a record the response forgot is rejected too. */
  function Cause(rejected: seq<RecordError>, s: nat): string {
    if rejected == [] then OMITTED
    else
      var last := rejected[|rejected| - 1];
      if last.sequence == s then last.code + ": " + last.message else Cause(rejected[..|rejected| - 1], s)
  }

  lemma {:induction false} CauseNonEmpty(rejected: seq<RecordError>, s: nat)
    ensures Cause(rejected, s) != ""
  {
    if rejected != [] {
      CauseNonEmpty(rejected[..|rejected| - 1], s);
    }
  }

  // ---- What one reply does to one record ----

  predicate LastTry(cfg: UploadConfig, record: Record) {
    record.row.rejections + 1 >= cfg.maxRetries
  }

  /** The queue transaction for one record of an answered or failed request. */
  function Dispose(cfg: UploadConfig, db: EdgeDb, record: Record, reply: Reply, at: Times): EdgeDb {
    var s := record.sequence;
    var retryAt := RetryTime(cfg, record.row.attempts, at.failed);
    match reply
    case RequestFailed(cause) => MarkFailed(db, s, retryAt, Truncate(cause), false).0
    case Decoded(accepted, rejected) =>
      if s in accepted then CompleteUpload(db, s, at.sent).0
      else if LastTry(cfg, record) then Abandon(db, s, Cause(rejected, s)).0
      else MarkFailed(db, s, retryAt, Cause(rejected, s), true).0
  }

  predicate Accepted(reply: Reply, s: nat) {
    reply.Decoded? && s in reply.accepted
  }

  /** Disposing of a record, then counting a failed upload against its incident. */
  function HandleRecord(cfg: UploadConfig, db: EdgeDb, record: Record, reply: Reply, at: Times): EdgeDb {
    var db' := Dispose(cfg, db, record, reply, at);
    if Accepted(reply, record.sequence) then db' else RecordUploadFailure(db', record.sequence)
  }

  function HandleBatch(cfg: UploadConfig, db: EdgeDb, batch: seq<Record>, reply: Reply, at: Times): EdgeDb {
    if batch == [] then db
    else HandleRecord(cfg, HandleBatch(cfg, db, batch[..|batch| - 1], reply, at), batch[|batch| - 1], reply, at)
  }

  /** One request and everything its outcome writes. */
  function Round(cfg: UploadConfig, db: EdgeDb, batch: seq<Record>, reply: Reply, at: Times): EdgeDb {
    match reply
    case RequestFailed(cause) => HandleBatch(cfg, ContactFailure(db, Truncate(cause)), batch, reply, at)
    case Decoded(_, _) => ContactSuccess(HandleBatch(cfg, db, batch, reply, at), at.sent)
  }

  // ---- Progress ----

  function UngatedSet(rows: map<nat, Row>, now: int): set<nat> {
    set s | s in rows && Ungated(rows[s], now)
  }

  function Sequences(batch: seq<Record>): set<nat> {
    set r | r in batch :: r.sequence
  }

  /** The only reply that leaves a record immediately eligible again: a rejection text the store refuses, before the last try. */
  predicate Oversized(cfg: UploadConfig, record: Record, reply: Reply) {
    && reply.Decoded?
    && record.sequence !in reply.accepted
    && !LastTry(cfg, record)
    && |Cause(reply.rejected, record.sequence)| > MAX_CAUSE_BYTES
  }

  predicate SameGate(rows: map<nat, Row>, rows': map<nat, Row>, t: nat) {
    && t in rows && t in rows' && rows'[t].status == rows[t].status
    && rows'[t].nextAttempt == rows[t].nextAttempt && rows'[t].rejections == rows[t].rejections
  }

  lemma CompletionGate(db: EdgeDb, s: nat, at: int, t: nat)
    requires t in db.rows && t != s
    ensures SameGate(db.rows, CompleteUpload(db, s, at).0.rows, t)
  {
  }

  lemma RejectionGate(db: EdgeDb, s: nat, at: int, cause: string, rejected: bool, t: nat)
    requires t in db.rows && t != s
    ensures SameGate(db.rows, Abandon(db, s, cause).0.rows, t)
    ensures SameGate(db.rows, MarkFailed(db, s, at, cause, rejected).0.rows, t)
  {
  }

  lemma HandlingTouchesOneGate(cfg: UploadConfig, db: EdgeDb, record: Record, reply: Reply, at: Times, t: nat)
    requires reply.Decoded? && t in db.rows && t != record.sequence
    ensures SameGate(db.rows, HandleRecord(cfg, db, record, reply, at).rows, t)
  {
    var s, cause := record.sequence, Cause(reply.rejected, record.sequence);
    CompletionGate(db, s, at.sent, t);
    RejectionGate(db, s, RetryTime(cfg, record.row.attempts, at.failed), cause, true, t);
  }

  /** A handled record stays ungated exactly when its rejection text was oversized. */
  lemma HandledRecordIsGated(cfg: UploadConfig, db: EdgeDb, record: Record, reply: Reply, at: Times)
    requires cfg.Valid() && reply.Decoded?
    requires record.sequence in db.rows && Ungated(db.rows[record.sequence], at.failed)
    ensures var db' := HandleRecord(cfg, db, record, reply, at);
      && db'.rows.Keys == db.rows.Keys
      && (Ungated(db'.rows[record.sequence], at.failed) <==> Oversized(cfg, record, reply))
  {
    RetryIsLater(cfg, record.row.attempts, at.failed);
    CauseNonEmpty(reply.rejected, record.sequence);
  }

  lemma HandlingGatesOne(cfg: UploadConfig, db: EdgeDb, record: Record, reply: Reply, at: Times)
    requires cfg.Valid() && reply.Decoded? && record.sequence in UngatedSet(db.rows, at.failed)
    ensures var db' := HandleRecord(cfg, db, record, reply, at);
      && db'.rows.Keys == db.rows.Keys
      && UngatedSet(db'.rows, at.failed) == UngatedSet(db.rows, at.failed) - (if Oversized(cfg, record, reply) then {} else {record.sequence})
  {
    HandledRecordIsGated(cfg, db, record, reply, at);
    var db' := HandleRecord(cfg, db, record, reply, at);
    forall t | t in db.rows && t != record.sequence ensures Ungated(db'.rows[t], at.failed) <==> Ungated(db.rows[t], at.failed) {
      HandlingTouchesOneGate(cfg, db, record, reply, at, t);
    }
  }

  ghost predicate DistinctRecords(batch: seq<Record>) {
    forall i, j | 0 <= i < j < |batch| :: batch[i].sequence != batch[j].sequence
  }

  function StillUngated(cfg: UploadConfig, batch: seq<Record>, reply: Reply): set<nat> {
    set r | r in batch && Oversized(cfg, r, reply) :: r.sequence
  }

  lemma {:induction false} BatchIsGated(cfg: UploadConfig, db: EdgeDb, batch: seq<Record>, reply: Reply, at: Times)
    requires cfg.Valid() && reply.Decoded? && DistinctRecords(batch)
    requires Sequences(batch) <= UngatedSet(db.rows, at.failed)
    ensures var db' := HandleBatch(cfg, db, batch, reply, at);
      && db'.rows.Keys == db.rows.Keys
      && UngatedSet(db'.rows, at.failed) == UngatedSet(db.rows, at.failed) - (Sequences(batch) - StillUngated(cfg, batch, reply))
  {
    if batch != [] {
      var n := |batch| - 1;
      var rest, last := batch[..n], batch[n];
      assert batch == rest + [last];
      SplitLast(cfg, rest, last, reply);
      BatchIsGated(cfg, db, rest, reply, at);
      assert last.sequence !in Sequences(rest);
      HandlingGatesOne(cfg, HandleBatch(cfg, db, rest, reply, at), last, reply, at);
      assert StillUngated(cfg, rest, reply) <= Sequences(rest);
    }
  }

  lemma SplitLast(cfg: UploadConfig, rest: seq<Record>, last: Record, reply: Reply)
    ensures Sequences(rest + [last]) == Sequences(rest) + {last.sequence}
    ensures StillUngated(cfg, rest + [last], reply)
         == StillUngated(cfg, rest, reply) + (if Oversized(cfg, last, reply) then {last.sequence} else {})
  {
    var all := rest + [last];
    assert forall r :: r in all <==> r in rest || r == last;
  }

  /** After an answered round, exactly the records with oversized rejections can be sent again at once. */
  lemma RoundProgress(cfg: UploadConfig, db: EdgeDb, batch: seq<Record>, reply: Reply, at: Times)
    requires cfg.Valid() && reply.Decoded? && DistinctRecords(batch)
    requires Sequences(batch) <= UngatedSet(db.rows, at.failed)
    ensures UngatedSet(Round(cfg, db, batch, reply, at).rows, at.failed)
         == UngatedSet(db.rows, at.failed) - (Sequences(batch) - StillUngated(cfg, batch, reply))
  {
    BatchIsGated(cfg, db, batch, reply, at);
  }

  lemma {:induction false} OversizedBatchSpins(cfg: UploadConfig, db: EdgeDb, batch: seq<Record>, reply: Reply, at: Times)
    requires forall i | 0 <= i < |batch| :: Oversized(cfg, batch[i], reply)
    ensures HandleBatch(cfg, db, batch, reply, at).rows == db.rows
  {
    if batch != [] {
      OversizedBatchSpins(cfg, db, batch[..|batch| - 1], reply, at);
      assert Oversized(cfg, batch[|batch| - 1], reply);
    }
  }

  /** With oversized rejection texts for its whole batch a round changes no row, so an unbounded number of rounds changes none. */
  lemma OversizedRoundSpins(cfg: UploadConfig, db: EdgeDb, batch: seq<Record>, reply: Reply, at: Times)
    requires batch != [] && forall i | 0 <= i < |batch| :: Oversized(cfg, batch[i], reply)
    ensures Round(cfg, db, batch, reply, at).rows == db.rows
  {
    OversizedBatchSpins(cfg, db, batch, reply, at);
    assert Oversized(cfg, batch[0], reply);
  }

  /** A concrete reply of that kind: one rejection whose message is 2048 bytes long. */
  lemma OversizedReplyExists()
    ensures var cfg := UploadConfig(50, 0x10_0000, 1000, 300_000, 20);
      var event := Event("met-0101", "smart_meter", "t", "p", PRIORITY_NORMAL, Some(1), Some(1), None, None);
      var row := Row(event, 1, None, PendingUpload, 0, 0, false, None, None, None, None);
      var reply := Decoded([], [RecordError(1, "internal", seq(2048, _ => 'x'))]);
      && cfg.Valid()
      && Eligible(map[1 := row], 1, 5)
      && Oversized(cfg, Record(1, row), reply)
  {
    var rejected := [RecordError(1, "internal", seq(2048, _ => 'x'))];
    assert |Cause(rejected, 1)| == 8 + 2 + 2048;
  }

  // ---- The abandonment budget ----

  predicate Refused(reply: Reply, s: nat) {
    reply.Decoded? && s !in reply.accepted
  }

  /** The replies that cost a record one of its tries. */
  predicate Charges(cfg: UploadConfig, record: Record, reply: Reply) {
    Refused(reply, record.sequence) && (LastTry(cfg, record) || |Cause(reply.rejected, record.sequence)| <= MAX_CAUSE_BYTES)
  }

  /**
   Handling a pending record raises its rejections by exactly one for a charging reply, and leaves them alone for
   every other.
   */
  lemma BudgetChargedExactly(cfg: UploadConfig, db: EdgeDb, record: Record, reply: Reply, at: Times)
    requires record.sequence in db.rows && db.rows[record.sequence].status == PendingUpload
    ensures var rows := Dispose(cfg, db, record, reply, at).rows;
      && record.sequence in rows
      && rows[record.sequence].rejections == db.rows[record.sequence].rejections + (if Charges(cfg, record, reply) then 1 else 0)
  {
    if reply.Decoded? {
      CauseNonEmpty(reply.rejected, record.sequence);
    }
  }

  /** The reply rejects this very record. */
  predicate Named(reply: Reply, s: nat) {
    reply.Decoded? && exists i | 0 <= i < |reply.rejected| :: reply.rejected[i].sequence == s
  }

  lemma {:induction false} UnnamedCause(rejected: seq<RecordError>, s: nat)
    requires forall i | 0 <= i < |rejected| :: rejected[i].sequence != s
    ensures Cause(rejected, s) == OMITTED
  {
    if rejected != [] {
      UnnamedCause(rejected[..|rejected| - 1], s);
    }
  }

  /**
   Only a rejection naming the record costs it a try, exactly when the reply failed as a whole, accepts the record,
   or names it.
   */
  lemma OnlyNamedChargedExactly(cfg: UploadConfig, db: EdgeDb, record: Record, reply: Reply, at: Times)
    requires record.sequence in db.rows && db.rows[record.sequence].status == PendingUpload
    ensures record.sequence in Dispose(cfg, db, record, reply, at).rows
    ensures var charged := Dispose(cfg, db, record, reply, at).rows[record.sequence].rejections != db.rows[record.sequence].rejections;
      (charged ==> Named(reply, record.sequence)) <==>
        reply.RequestFailed? || record.sequence in reply.accepted || Named(reply, record.sequence)
  {
    BudgetChargedExactly(cfg, db, record, reply, at);
    if Refused(reply, record.sequence) && !Named(reply, record.sequence) {
      UnnamedCause(reply.rejected, record.sequence);
      assert |OMITTED| <= MAX_CAUSE_BYTES;
    }
  }

  /** A client error whose body decodes to nothing costs every record of the batch a try, and the last try abandons. */
  lemma EmptyReplyCharges(cfg: UploadConfig, db: EdgeDb, record: Record, at: Times)
    requires record.sequence in db.rows && db.rows[record.sequence].status == PendingUpload
    ensures var row := Dispose(cfg, db, record, Decoded([], []), at).rows[record.sequence];
      && row.rejections == db.rows[record.sequence].rejections + 1
      && (row.status == Abandoned <==> LastTry(cfg, record))
  {
    BudgetChargedExactly(cfg, db, record, Decoded([], []), at);
    assert Cause([], record.sequence) == OMITTED && |OMITTED| <= MAX_CAUSE_BYTES;
  }

  // ---- The tries left ----

  /** One pair for every try a pending record has left; the last try counts even where the configured number has been used up. */
  ghost function TriesLeft(cfg: UploadConfig, rows: map<nat, Row>): set<(nat, nat)> {
    set s: nat, k: nat | s in rows && rows[s].status == PendingUpload && rows[s].rejections <= k < TryLimit(cfg, rows[s]) :: (s, k)
  }

  function TryLimit(cfg: UploadConfig, row: Row): int {
    if row.rejections + 1 < cfg.maxRetries then cfg.maxRetries else row.rejections + 1
  }

  /** The record is pending with the rejections it was read with. */
  predicate AsRead(rows: map<nat, Row>, record: Record) {
    && record.sequence in rows && rows[record.sequence].status == PendingUpload
    && rows[record.sequence].rejections == record.row.rejections
  }

  function NextTry(record: Record): (nat, nat) {
    (record.sequence, record.row.rejections)
  }

  ghost predicate SameTries(rows: map<nat, Row>, rows': map<nat, Row>, t: nat) {
    t in rows && t in rows' && rows'[t].status == rows[t].status && rows'[t].rejections == rows[t].rejections
  }

  /** What an answer does to the record it is for. */
  lemma HandledRecordSpends(cfg: UploadConfig, db: EdgeDb, record: Record, reply: Reply, at: Times)
    requires reply.Decoded? && AsRead(db.rows, record)
    ensures var rows := HandleRecord(cfg, db, record, reply, at).rows;
      && rows.Keys == db.rows.Keys
      && (Oversized(cfg, record, reply) ==> SameTries(db.rows, rows, record.sequence))
      && (!Oversized(cfg, record, reply) && rows[record.sequence].status == PendingUpload ==>
            rows[record.sequence].rejections == record.row.rejections + 1 < cfg.maxRetries)
  {
    CauseNonEmpty(reply.rejected, record.sequence);
  }

  /** Handling a record takes its next try, unless the rejection could not be written, and adds none to any record. */
  lemma HandlingSpendsOne(cfg: UploadConfig, db: EdgeDb, record: Record, reply: Reply, at: Times)
    requires reply.Decoded? && AsRead(db.rows, record)
    ensures var tries := TriesLeft(cfg, HandleRecord(cfg, db, record, reply, at).rows);
      && tries <= TriesLeft(cfg, db.rows)
      && (NextTry(record) in tries <==> Oversized(cfg, record, reply))
  {
    HandledRecordSpends(cfg, db, record, reply, at);
    var rows := HandleRecord(cfg, db, record, reply, at).rows;
    forall pair | pair in TriesLeft(cfg, rows) ensures pair in TriesLeft(cfg, db.rows) {
      if pair.0 != record.sequence {
        HandlingTouchesOneGate(cfg, db, record, reply, at, pair.0);
      }
    }
  }

  lemma {:induction false} BatchSpends(cfg: UploadConfig, db: EdgeDb, batch: seq<Record>, reply: Reply, at: Times)
    requires reply.Decoded? && DistinctRecords(batch) && forall i | 0 <= i < |batch| :: AsRead(db.rows, batch[i])
    ensures var db' := HandleBatch(cfg, db, batch, reply, at);
      && TriesLeft(cfg, db'.rows) <= TriesLeft(cfg, db.rows)
      && (forall i | 0 <= i < |batch| && !Oversized(cfg, batch[i], reply) :: NextTry(batch[i]) !in TriesLeft(cfg, db'.rows))
      && db'.rows.Keys == db.rows.Keys
      && (forall t | t in db.rows && t !in Sequences(batch) :: SameTries(db.rows, db'.rows, t))
  {
    if batch != [] {
      var n := |batch| - 1;
      var rest, last := batch[..n], batch[n];
      assert batch == rest + [last];
      BatchSpends(cfg, db, rest, reply, at);
      var before := HandleBatch(cfg, db, rest, reply, at);
      SplitLast(cfg, rest, last, reply);
      assert AsRead(db.rows, batch[n]) && last.sequence !in Sequences(rest);
      assert SameTries(db.rows, before.rows, last.sequence);
      HandledRecordSpends(cfg, before, last, reply, at);
      HandlingSpendsOne(cfg, before, last, reply, at);
      forall t | t in db.rows && t !in Sequences(batch) ensures SameTries(db.rows, HandleRecord(cfg, before, last, reply, at).rows, t) {
        HandlingTouchesOneGate(cfg, before, last, reply, at, t);
      }
      forall i | 0 <= i < |rest| && !Oversized(cfg, rest[i], reply)
        ensures NextTry(rest[i]) !in TriesLeft(cfg, HandleRecord(cfg, before, last, reply, at).rows)
      {
        assert NextTry(rest[i]) !in TriesLeft(cfg, before.rows);
      }
    }
  }

  /**
   Whatever the clock does, an answered round spends tries and never gives any back; it spends none exactly if it
   changes no row because every rejection was oversized.
   */
  lemma RoundSpendsTries(cfg: UploadConfig, db: EdgeDb, batch: seq<Record>, reply: Reply, at: Times)
    requires reply.Decoded? && DistinctRecords(batch) && forall i | 0 <= i < |batch| :: AsRead(db.rows, batch[i])
    ensures var rows := Round(cfg, db, batch, reply, at).rows;
      && TriesLeft(cfg, rows) <= TriesLeft(cfg, db.rows)
      && (TriesLeft(cfg, rows) == TriesLeft(cfg, db.rows) <==> forall i | 0 <= i < |batch| :: Oversized(cfg, batch[i], reply))
      && ((forall i | 0 <= i < |batch| :: Oversized(cfg, batch[i], reply)) ==> rows == db.rows)
  {
    BatchSpends(cfg, db, batch, reply, at);
    if i: nat :| i < |batch| && !Oversized(cfg, batch[i], reply) {
      assert AsRead(db.rows, batch[i]) && NextTry(batch[i]) in TriesLeft(cfg, db.rows);
    } else {
      OversizedBatchSpins(cfg, db, batch, reply, at);
    }
  }

  // ---- The drain ----

  ghost predicate ShortCauses(reply: Reply) {
    reply.Decoded? ==> forall s :: |Cause(reply.rejected, s)| <= MAX_CAUSE_BYTES
  }

  lemma BatchIsUngated(rows: map<nat, Row>, now: int, n: nat, batch: seq<Record>, limit: nat, maxBytes: int)
    requires BatchOf(batch, EligibleUpTo(rows, now, n), limit, maxBytes)
    ensures DistinctRecords(batch) && Sequences(batch) <= UngatedSet(rows, now)
    ensures forall i | 0 <= i < |batch| :: AsRead(rows, batch[i])
  {
    var query := EligibleUpTo(rows, now, n);
    forall i | 0 <= i < |batch|
      ensures batch[i].sequence in rows && Ungated(rows[batch[i].sequence], now) && AsRead(rows, batch[i])
      ensures forall j | 0 <= j < i :: batch[j].sequence < batch[i].sequence
    {
      EligibleListed(rows, now, n, i);
    }
  }

  /** The database after these batches were sent one after another. */
  ghost function Drained(cfg: UploadConfig, db: EdgeDb, batches: seq<seq<Record>>, clock: nat -> Times, server: nat -> Reply): EdgeDb {
    if batches == [] then db
    else
      var k := |batches| - 1;
      Round(cfg, Drained(cfg, db, batches[..k], clock, server), batches[k], server(k), clock(k))
  }

  /** Batch k is the one chosen from what the batches before it left. */
  ghost predicate Chosen(cfg: UploadConfig, db: EdgeDb, batches: seq<seq<Record>>, clock: nat -> Times, server: nat -> Reply, k: nat)
    requires k < |batches|
  {
    var before := Drained(cfg, db, batches[..k], clock, server);
    BatchOf(batches[k], EligibleUpTo(before.rows, clock(k).ready, before.lastSequence), cfg.batchSize, cfg.batchMaxBytes)
  }

  /** Each batch was chosen from what the one before it left, and only an empty batch or a failed request ends the sequence. */
  ghost predicate Drains(cfg: UploadConfig, db: EdgeDb, batches: seq<seq<Record>>, clock: nat -> Times, server: nat -> Reply) {
    && (forall k | 0 <= k < |batches| :: Chosen(cfg, db, batches, clock, server, k))
    && (forall k | 0 <= k < |batches| - 1 :: batches[k] != [] && server(k).Decoded?)
  }

  lemma DrainedOneMore(cfg: UploadConfig, db: EdgeDb, batches: seq<seq<Record>>, batch: seq<Record>, clock: nat -> Times, server: nat -> Reply)
    ensures Drained(cfg, db, batches + [batch], clock, server)
         == Round(cfg, Drained(cfg, db, batches, clock, server), batch, server(|batches|), clock(|batches|))
  {
    assert (batches + [batch])[..|batches|] == batches;
  }

  lemma ChosenStays(cfg: UploadConfig, db: EdgeDb, batches: seq<seq<Record>>, batch: seq<Record>, clock: nat -> Times, server: nat -> Reply, k: nat)
    requires k < |batches| && Chosen(cfg, db, batches, clock, server, k)
    ensures Chosen(cfg, db, batches + [batch], clock, server, k)
  {
    assert (batches + [batch])[..k] == batches[..k];
  }

  lemma LastIsChosen(cfg: UploadConfig, db: EdgeDb, batches: seq<seq<Record>>, batch: seq<Record>, clock: nat -> Times, server: nat -> Reply)
    requires var before := Drained(cfg, db, batches, clock, server);
      BatchOf(batch, EligibleUpTo(before.rows, clock(|batches|).ready, before.lastSequence), cfg.batchSize, cfg.batchMaxBytes)
    ensures Chosen(cfg, db, batches + [batch], clock, server, |batches|)
  {
    assert (batches + [batch])[..|batches|] == batches;
  }

  lemma OneMoreBatch(cfg: UploadConfig, db: EdgeDb, batches: seq<seq<Record>>, batch: seq<Record>, clock: nat -> Times, server: nat -> Reply)
    requires Drains(cfg, db, batches, clock, server)
    requires batches != [] ==> batches[|batches| - 1] != [] && server(|batches| - 1).Decoded?
    requires Chosen(cfg, db, batches + [batch], clock, server, |batches|)
    ensures Drains(cfg, db, batches + [batch], clock, server)
  {
    var more := batches + [batch];
    forall k | 0 <= k < |more|
      ensures Chosen(cfg, db, more, clock, server, k)
    {
      if k < |batches| {
        ChosenStays(cfg, db, batches, batch, clock, server, k);
      }
    }
  }

  /** These batches drained the database from start to db. */
  ghost predicate DrainedTo(cfg: UploadConfig, start: EdgeDb, batches: seq<seq<Record>>, clock: nat -> Times, server: nat -> Reply, db: EdgeDb) {
    Drains(cfg, start, batches, clock, server) && db == Drained(cfg, start, batches, clock, server)
  }

  lemma NothingDrained(cfg: UploadConfig, start: EdgeDb, clock: nat -> Times, server: nat -> Reply)
    ensures DrainedTo(cfg, start, [], clock, server, start)
  {
  }

  lemma OneMoreDrained(cfg: UploadConfig, start: EdgeDb, batches: seq<seq<Record>>, batch: seq<Record>, clock: nat -> Times, server: nat -> Reply,
                       db: EdgeDb, db': EdgeDb)
    requires DrainedTo(cfg, start, batches, clock, server, db)
    requires batches != [] ==> batches[|batches| - 1] != [] && server(|batches| - 1).Decoded?
    requires BatchOf(batch, EligibleUpTo(db.rows, clock(|batches|).ready, db.lastSequence), cfg.batchSize, cfg.batchMaxBytes)
    requires db' == Round(cfg, db, batch, server(|batches|), clock(|batches|))
    ensures DrainedTo(cfg, start, batches + [batch], clock, server, db')
  {
    LastIsChosen(cfg, start, batches, batch, clock, server);
    OneMoreBatch(cfg, start, batches, batch, clock, server);
    DrainedOneMore(cfg, start, batches, batch, clock, server);
  }

  /** An answered round on a batch that is not empty spends a try. */
  lemma AnsweredBatchSpends(cfg: UploadConfig, db: EdgeDb, batch: seq<Record>, reply: Reply, at: Times)
    requires BatchOf(batch, EligibleUpTo(db.rows, at.ready, db.lastSequence), cfg.batchSize, cfg.batchMaxBytes)
    requires batch != [] && reply.Decoded? && ShortCauses(reply)
    ensures TriesLeft(cfg, Round(cfg, db, batch, reply, at).rows) < TriesLeft(cfg, db.rows)
  {
    BatchIsUngated(db.rows, at.ready, db.lastSequence, batch, cfg.batchSize, cfg.batchMaxBytes);
    RoundSpendsTries(cfg, db, batch, reply, at);
    assert !Oversized(cfg, batch[0], reply);
  }

  class Client {
    const cfg: UploadConfig
    const store: Store

    constructor (cfg: UploadConfig, store: Store)
      requires cfg.Valid()
      ensures this.cfg == cfg && this.store == store
    {
      this.cfg, this.store := cfg, store;
    }

    /** Sends the next batch and applies the reply. */
    method UploadBatch(at: Times, reply: Reply) returns (batch: seq<Record>, failed: bool)
      requires cfg.Valid()
      modifies store
      ensures BatchOf(batch, EligibleUpTo(old(store.rows), at.ready, old(store.lastSequence)), cfg.batchSize, cfg.batchMaxBytes)
      ensures failed == reply.RequestFailed?
      ensures store.Db() == Round(cfg, old(store.Db()), batch, reply, at)
    {
      var ready := store.Ready(at.ready, cfg.batchSize, cfg.batchMaxBytes);
      batch := ready.value;
      failed := reply.RequestFailed?;
      if failed {
        store.RecordContactFailure(Truncate(reply.cause));
      }
      Handle(batch, reply, at);
      if !failed {
        store.RecordContactSuccess(at.sent);
      }
    }

    method Handle(batch: seq<Record>, reply: Reply, at: Times)
      modifies store
      ensures store.Db() == HandleBatch(cfg, old(store.Db()), batch, reply, at)
    {
      for i := 0 to |batch|
        invariant store.Db() == HandleBatch(cfg, old(store.Db()), batch[..i], reply, at)
      {
        assert batch[..i + 1][..i] == batch[..i];
        HandleOne(batch[i], reply, at);
      }
      assert batch[..|batch|] == batch;
    }

    method HandleOne(record: Record, reply: Reply, at: Times)
      modifies store
      ensures store.Db() == HandleRecord(cfg, old(store.Db()), record, reply, at)
    {
      var s := record.sequence;
      if reply.Decoded? && s in reply.accepted {
        var outcome := store.Complete(s, at.sent);
        return;
      }
      if reply.Decoded? && record.row.rejections + 1 >= cfg.maxRetries {
        var outcome := store.GiveUp(s, Cause(reply.rejected, s));
      } else {
        var cause := if reply.Decoded? then Cause(reply.rejected, s) else Truncate(reply.cause);
        var outcome := store.Fail(s, RetryTime(cfg, record.row.attempts, at.failed), cause, reply.Decoded?);
      }
      store.RecordFallbackUploadFailure(s);
    }

    /**
     Sends batches until one is empty or a request fails. Whatever the server answers
     within the size limit and whatever the clock shows each round, this ends, and unless
     a request failed nothing was left ready when the last batch was chosen.
     */
    method DrainOnce(clock: nat -> Times, server: nat -> Reply) returns (rounds: nat, failed: bool, ghost batches: seq<seq<Record>>)
      requires cfg.Valid()
      requires forall k :: ShortCauses(server(k))
      modifies store
      ensures rounds == |batches| > 0 && (failed <==> server(rounds - 1).RequestFailed?)
      ensures DrainedTo(cfg, old(store.Db()), batches, clock, server, store.Db())
      ensures !failed ==> batches[rounds - 1] == []
      ensures !failed ==> EligibleUpTo(store.rows, clock(rounds - 1).ready, store.lastSequence) == []
    {
      rounds, batches := 0, [];
      ghost var start := store.Db();
      NothingDrained(cfg, start, clock, server);
      while true
        invariant rounds == |batches| && DrainedTo(cfg, start, batches, clock, server, store.Db())
        invariant batches != [] ==> batches[rounds - 1] != [] && server(rounds - 1).Decoded?
        decreases TriesLeft(cfg, store.rows)
      {
        var batch;
        var at, reply := clock(rounds), server(rounds);
        ghost var db := store.Db();
        batch, failed := UploadBatch(at, reply);
        OneMoreDrained(cfg, start, batches, batch, clock, server, db, store.Db());
        rounds, batches := rounds + 1, batches + [batch];
        if failed {
          return;
        }
        if |batch| == 0 {
          assert EligibleUpTo(db.rows, at.ready, db.lastSequence) == [];
          return;
        }
        AnsweredBatchSpends(cfg, db, batch, reply, at);
      }
    }
  }
}
