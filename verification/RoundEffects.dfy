/** What one upload round writes to every row, incident and counter, for failed requests and for answers record by record. */
module RoundEffects {
  import opened Prelude
  import opened EdgeModel
  import opened EdgeStore
  import opened Uploader

  // ---- The delay ----

  /** The base delay, doubled once per earlier attempt, never above the maximum. */
  function Backoff(base: int, maximum: int, attempts: nat): int {
    if attempts == 0 then Smaller(base, maximum) else Smaller(2 * Backoff(base, maximum, attempts - 1), maximum)
  }

  lemma {:induction false} RetryIsBackoff(cfg: UploadConfig, attempts: nat, now: int)
    requires cfg.Valid()
    ensures RetryTime(cfg, attempts, now) == now + Backoff(cfg.baseDelay, cfg.maxDelay, attempts)
  {
    if attempts == 0 {
      RetryDoubles(cfg, 0, now);
    } else {
      RetryIsBackoff(cfg, attempts - 1, now);
      RetryDoubles(cfg, attempts - 1, now);
    }
  }

  // ---- One row ----

  /** The row as it was, except that it may have been marked as a replay. */
  predicate Untouched(row: Row, row': Row) {
    row' == row.(replay := row'.replay) && (row.replay ==> row'.replay)
  }

  predicate Marked(row: Row, row': Row) {
    row' == row.(replay := true)
  }

  /** Rescheduled after a failure with this text; a rejection counts against the record. */
  predicate Rescheduled(cfg: UploadConfig, row: Row, row': Row, rejected: bool, text: string, failedAt: int) {
    row' == row.(attempts := row.attempts + 1, rejections := row.rejections + (if rejected then 1 else 0), replay := true,
                 lastError := Some(text), nextAttempt := Some(failedAt + Backoff(cfg.baseDelay, cfg.maxDelay, row.attempts)))
  }

  predicate Acknowledgement(row: Row, row': Row, sentAt: int) {
    Untouched(row.(status := Acknowledged, uploadedAt := Some(sentAt), nextAttempt := None, lastError := None), row')
  }

  predicate Abandonment(row: Row, row': Row, text: string) {
    Untouched(row.(status := Abandoned, attempts := row.attempts + 1, rejections := row.rejections + 1,
                   nextAttempt := None, lastError := Some(text)), row')
  }

  /** At most 2048 bytes of a text. */
  predicate Shortened(text: string, cut: string) {
    cut <= text && |cut| == if |text| > 2048 then 2048 else |text|
  }

  /** The text the answer gives for a record it does not accept: its last rejection, or that it was forgotten. */
  ghost predicate RejectionText(rejected: seq<RecordError>, s: nat, text: string) {
    (exists k | 0 <= k < |rejected| :: LastNaming(rejected, s, k) && text == rejected[k].code + ": " + rejected[k].message)
    || ((forall k | 0 <= k < |rejected| :: rejected[k].sequence != s) && text == OMITTED)
  }

  ghost predicate LastNaming(rejected: seq<RecordError>, s: nat, k: nat)
    requires k < |rejected|
  {
    rejected[k].sequence == s && forall j | k < j < |rejected| :: rejected[j].sequence != s
  }

  lemma EarlierText(rejected: seq<RecordError>, s: nat, text: string)
    requires rejected != [] && rejected[|rejected| - 1].sequence != s && RejectionText(rejected[..|rejected| - 1], s, text)
    ensures RejectionText(rejected, s, text)
  {
    var rest := rejected[..|rejected| - 1];
    if k :| 0 <= k < |rest| && LastNaming(rest, s, k) && text == rest[k].code + ": " + rest[k].message {
      assert LastNaming(rejected, s, k);
    }
  }

  lemma {:induction false} CauseIsRejectionText(rejected: seq<RecordError>, s: nat)
    ensures RejectionText(rejected, s, Cause(rejected, s))
  {
    if rejected != [] {
      var n := |rejected| - 1;
      if rejected[n].sequence == s {
        assert LastNaming(rejected, s, n);
      } else {
        CauseIsRejectionText(rejected[..n], s);
        EarlierText(rejected, s, Cause(rejected[..n], s));
      }
    }
  }

  lemma RejectionTextUnique(rejected: seq<RecordError>, s: nat, a: string, b: string)
    requires RejectionText(rejected, s, a) && RejectionText(rejected, s, b)
    ensures a == b
  {
  }

  /** What the reply makes of a pending record. */
  ghost predicate Settles(cfg: UploadConfig, s: nat, row: Row, row': Row, reply: Reply, at: Times) {
    match reply
    case RequestFailed(cause) => exists text :: Shortened(cause, text) && Rescheduled(cfg, row, row', false, text, at.failed)
    case Decoded(accepted, rejected) =>
      if s in accepted then Acknowledgement(row, row', at.sent)
      else exists text :: RejectionText(rejected, s, text) && SettlesRefused(cfg, row, row', text, at)
  }

  ghost predicate SettlesRefused(cfg: UploadConfig, row: Row, row': Row, text: string, at: Times) {
    if row.rejections + 1 >= cfg.maxRetries then exists cut :: Shortened(text, cut) && Abandonment(row, row', cut)
    else if |text| <= 2048 then Rescheduled(cfg, row, row', true, text, at.failed)
    else Untouched(row, row')
  }

  /** The reply reschedules the record, and so marks the whole queue. */
  ghost predicate Reschedules(cfg: UploadConfig, record: Record, reply: Reply) {
    || reply.RequestFailed?
    || (record.sequence !in reply.accepted && record.row.rejections + 1 < cfg.maxRetries
        && exists text :: RejectionText(reply.rejected, record.sequence, text) && |text| <= 2048)
  }

  /** The record is in the table as it was read, except that it may have been marked since. */
  predicate AsListed(rows: map<nat, Row>, record: Record) {
    record.sequence in rows && record.row.status == PendingUpload && Untouched(record.row, rows[record.sequence])
  }

  ghost predicate Ready(rows: map<nat, Row>, batch: seq<Record>) {
    DistinctRecords(batch) && forall i | 0 <= i < |batch| :: AsListed(rows, batch[i])
  }

  lemma {:induction false} PrefixBytes(records: seq<Record>, n: nat)
    requires n <= |records|
    ensures PayloadBytes(records[..n]) <= PayloadBytes(records)
    ensures n < |records| ==> PayloadBytes(records[..n]) + |records[n].row.event.payload| <= PayloadBytes(records)
    decreases |records|
  {
    if n == |records| {
      assert records[..n] == records;
    } else if n < |records| - 1 {
      var rest := records[..|records| - 1];
      assert rest[..n] == records[..n];
      PrefixBytes(rest, n);
    }
  }

  /** The batch is the longest run of ready records that keeps both limits, the first one taken whatever its size. */
  lemma BatchIsLongest(batch: seq<Record>, query: seq<Record>, limit: nat, maxBytes: int)
    requires BatchOf(batch, query, limit, maxBytes)
    ensures batch <= query && |batch| <= limit && (|batch| >= 2 ==> PayloadBytes(batch) <= maxBytes)
    ensures forall n | |batch| < n <= |query| :: n > limit || (n >= 2 && PayloadBytes(query[..n]) > maxBytes)
  {
    forall n | |batch| < n <= |query|
      ensures n > limit || (n >= 2 && PayloadBytes(query[..n]) > maxBytes)
    {
      if n <= limit {
        assert query[..n][..|batch|] == batch;
        PrefixBytes(query[..n], |batch|);
      }
    }
  }

  /** What the queue hands out is ready. */
  lemma BatchIsReady(rows: map<nat, Row>, now: int, n: nat, batch: seq<Record>, limit: nat, maxBytes: int)
    requires BatchOf(batch, EligibleUpTo(rows, now, n), limit, maxBytes)
    ensures Ready(rows, batch)
  {
    BatchIsUngated(rows, now, n, batch, limit, maxBytes);
    forall i | 0 <= i < |batch| ensures AsListed(rows, batch[i]) {
      EligibleListed(rows, now, n, i);
    }
  }

  ghost predicate AllMarked(rows: map<nat, Row>) {
    forall t | t in rows && rows[t].status.Active() :: rows[t].replay
  }

  predicate NonEmptyCause(reply: Reply) {
    reply.RequestFailed? ==> reply.cause != ""
  }

  // ---- Each write ----

  lemma FailureWrites(db: EdgeDb, s: nat, retryAt: int, cause: string, rejected: bool)
    requires s in db.rows && db.rows[s].status == PendingUpload && cause != "" && |cause| <= 2048
    ensures var db' := MarkFailed(db, s, retryAt, cause, rejected).0;
      && db'.rows.Keys == db.rows.Keys
      && db'.rows[s] == db.rows[s].(attempts := db.rows[s].attempts + 1, replay := true, lastError := Some(cause), nextAttempt := Some(retryAt),
                                    rejections := db.rows[s].rejections + (if rejected then 1 else 0))
      && (forall t | t in db.rows && t != s :: if db.rows[t].status.Active() then Marked(db.rows[t], db'.rows[t]) else db'.rows[t] == db.rows[t])
      && db'.sync == db.sync.(lastFailure := Some(cause), replayMode := true)
      && db' == db.(rows := db'.rows, sync := db'.sync)
  {
  }

  lemma AcceptanceWrites(db: EdgeDb, s: nat, at: int)
    requires s in db.rows && db.rows[s].status == PendingUpload
    ensures var db' := CompleteUpload(db, s, at).0;
      && db'.rows == db.rows[s := db.rows[s].(status := Acknowledged, uploadedAt := Some(at), nextAttempt := None, lastError := None)]
      && db'.incidents == (if s in db.incidents then db.incidents[s := db.incidents[s].(deliveredAt := Some(at))] else db.incidents)
      && db'.sync.lastSuccess == Some(at) && db'.sync.lastFailure.None? && db'.sync.abandonedCount == db.sync.abandonedCount
      && db' == db.(rows := db'.rows, incidents := db'.incidents, sync := db'.sync)
  {
  }

  lemma AbandonmentWrites(db: EdgeDb, s: nat, cause: string)
    requires s in db.rows && db.rows[s].status == PendingUpload
    ensures var (db', row) := (Abandon(db, s, cause).0, db.rows[s]);
      exists cut :: Shortened(cause, cut)
        && db'.rows == db.rows[s := row.(status := Abandoned, attempts := row.attempts + 1, rejections := row.rejections + 1,
                                         nextAttempt := None, lastError := Some(cut))]
        && db'.sync == db.sync.(abandonedCount := db.sync.abandonedCount + 1)
        && db' == db.(rows := db'.rows, sync := db'.sync)
  {
    assert Shortened(cause, Truncate(cause));
  }

  // ---- One record ----

  lemma FailedRecordRow(cfg: UploadConfig, db: EdgeDb, record: Record, cause: string, at: Times)
    requires cfg.Valid() && AsListed(db.rows, record) && cause != ""
    ensures var rows := Dispose(cfg, db, record, RequestFailed(cause), at).rows;
      && rows.Keys == db.rows.Keys && AllMarked(rows)
      && Settles(cfg, record.sequence, record.row, rows[record.sequence], RequestFailed(cause), at)
      && forall t | t in rows && t != record.sequence :: Untouched(db.rows[t], rows[t])
  {
    RetryIsBackoff(cfg, record.row.attempts, at.failed);
    assert Shortened(cause, Truncate(cause));
    FailureWrites(db, record.sequence, RetryTime(cfg, record.row.attempts, at.failed), Truncate(cause), false);
  }

  lemma AcceptedRecordRow(cfg: UploadConfig, db: EdgeDb, record: Record, reply: Reply, at: Times)
    requires AsListed(db.rows, record) && reply.Decoded? && record.sequence in reply.accepted
    ensures var rows := Dispose(cfg, db, record, reply, at).rows;
      && rows.Keys == db.rows.Keys
      && Settles(cfg, record.sequence, record.row, rows[record.sequence], reply, at)
      && forall t | t in rows && t != record.sequence :: Untouched(db.rows[t], rows[t])
  {
    AcceptanceWrites(db, record.sequence, at.sent);
  }

  /** The rows after one record was dealt with: its own as the reply says, all others as they were but for the mark. */
  ghost predicate RecordSettled(cfg: UploadConfig, rows: map<nat, Row>, rows': map<nat, Row>, record: Record, reply: Reply, at: Times) {
    && rows'.Keys == rows.Keys && record.sequence in rows
    && (Reschedules(cfg, record, reply) ==> AllMarked(rows'))
    && Settles(cfg, record.sequence, record.row, rows'[record.sequence], reply, at)
    && forall t | t in rows' && t != record.sequence :: Untouched(rows[t], rows'[t])
  }

  lemma LastRefusalRow(cfg: UploadConfig, db: EdgeDb, record: Record, text: string, at: Times)
    requires AsListed(db.rows, record) && record.row.rejections + 1 >= cfg.maxRetries
    ensures var rows := Abandon(db, record.sequence, text).0.rows;
      && rows.Keys == db.rows.Keys
      && SettlesRefused(cfg, record.row, rows[record.sequence], text, at)
      && forall t | t in rows && t != record.sequence :: Untouched(db.rows[t], rows[t])
  {
    AbandonmentWrites(db, record.sequence, text);
  }

  lemma CountedRefusalRow(cfg: UploadConfig, db: EdgeDb, record: Record, text: string, at: Times)
    requires cfg.Valid() && AsListed(db.rows, record) && record.row.rejections + 1 < cfg.maxRetries && 0 < |text| <= 2048
    ensures var rows := MarkFailed(db, record.sequence, RetryTime(cfg, record.row.attempts, at.failed), text, true).0.rows;
      && rows.Keys == db.rows.Keys && AllMarked(rows)
      && SettlesRefused(cfg, record.row, rows[record.sequence], text, at)
      && forall t | t in rows && t != record.sequence :: Untouched(db.rows[t], rows[t])
  {
    RetryIsBackoff(cfg, record.row.attempts, at.failed);
    FailureWrites(db, record.sequence, RetryTime(cfg, record.row.attempts, at.failed), text, true);
  }

  lemma ShortTextReschedules(cfg: UploadConfig, record: Record, reply: Reply, text: string)
    requires reply.Decoded? && RejectionText(reply.rejected, record.sequence, text) && Reschedules(cfg, record, reply)
    ensures |text| <= 2048 && record.row.rejections + 1 < cfg.maxRetries
  {
    var other :| RejectionText(reply.rejected, record.sequence, other) && |other| <= 2048;
    RejectionTextUnique(reply.rejected, record.sequence, text, other);
  }

  lemma RefusalSettles(cfg: UploadConfig, rows: map<nat, Row>, rows': map<nat, Row>, record: Record, text: string, reply: Reply, at: Times)
    requires reply.Decoded? && record.sequence !in reply.accepted && RejectionText(reply.rejected, record.sequence, text)
    requires rows'.Keys == rows.Keys && record.sequence in rows
    requires SettlesRefused(cfg, record.row, rows'[record.sequence], text, at)
    requires forall t | t in rows' && t != record.sequence :: Untouched(rows[t], rows'[t])
    requires record.row.rejections + 1 < cfg.maxRetries && |text| <= 2048 ==> AllMarked(rows')
    ensures RecordSettled(cfg, rows, rows', record, reply, at)
  {
    if Reschedules(cfg, record, reply) {
      ShortTextReschedules(cfg, record, reply, text);
    }
  }

  lemma RefusedRecordRow(cfg: UploadConfig, db: EdgeDb, record: Record, reply: Reply, at: Times)
    requires cfg.Valid() && AsListed(db.rows, record) && reply.Decoded? && record.sequence !in reply.accepted
    ensures RecordSettled(cfg, db.rows, Dispose(cfg, db, record, reply, at).rows, record, reply, at)
  {
    var text := Cause(reply.rejected, record.sequence);
    CauseNonEmpty(reply.rejected, record.sequence);
    CauseIsRejectionText(reply.rejected, record.sequence);
    RefusedWrites(cfg, db, record, reply, text, at);
    RefusalSettles(cfg, db.rows, Dispose(cfg, db, record, reply, at).rows, record, text, reply, at);
  }

  lemma RefusedWrites(cfg: UploadConfig, db: EdgeDb, record: Record, reply: Reply, text: string, at: Times)
    requires cfg.Valid() && AsListed(db.rows, record) && reply.Decoded? && record.sequence !in reply.accepted
    requires text == Cause(reply.rejected, record.sequence) && text != ""
    ensures var rows := Dispose(cfg, db, record, reply, at).rows;
      && rows.Keys == db.rows.Keys
      && SettlesRefused(cfg, record.row, rows[record.sequence], text, at)
      && (forall t | t in rows && t != record.sequence :: Untouched(db.rows[t], rows[t]))
      && (record.row.rejections + 1 < cfg.maxRetries && |text| <= 2048 ==> AllMarked(rows))
  {
    if record.row.rejections + 1 >= cfg.maxRetries {
      LastRefusalRow(cfg, db, record, text, at);
    } else if |text| <= 2048 {
      CountedRefusalRow(cfg, db, record, text, at);
    } else {
      assert Dispose(cfg, db, record, reply, at).rows == db.rows;
    }
  }

  lemma RecordRow(cfg: UploadConfig, db: EdgeDb, record: Record, reply: Reply, at: Times)
    requires cfg.Valid() && AsListed(db.rows, record) && NonEmptyCause(reply)
    ensures RecordSettled(cfg, db.rows, HandleRecord(cfg, db, record, reply, at).rows, record, reply, at)
  {
    assert HandleRecord(cfg, db, record, reply, at).rows == Dispose(cfg, db, record, reply, at).rows;
    match reply {
      case RequestFailed(cause) => FailedRecordRow(cfg, db, record, cause, at);
      case Decoded(accepted, _) =>
        if record.sequence in accepted {
          AcceptedRecordRow(cfg, db, record, reply, at);
        } else {
          RefusedRecordRow(cfg, db, record, reply, at);
        }
    }
  }

  // ---- The round ----

  lemma SettlesStays(cfg: UploadConfig, s: nat, row: Row, row': Row, row'': Row, reply: Reply, at: Times)
    requires Settles(cfg, s, row, row', reply, at) && Untouched(row', row'')
    ensures Settles(cfg, s, row, row'', reply, at)
  {
    match reply {
      case RequestFailed(cause) =>
        var text :| Shortened(cause, text) && Rescheduled(cfg, row, row', false, text, at.failed);
        assert Rescheduled(cfg, row, row'', false, text, at.failed);
      case Decoded(accepted, rejected) =>
        if s !in accepted {
          var text :| RejectionText(rejected, s, text) && SettlesRefused(cfg, row, row', text, at);
          if row.rejections + 1 >= cfg.maxRetries {
            var cut :| Shortened(text, cut) && Abandonment(row, row', cut);
            assert Abandonment(row, row'', cut);
          }
          assert SettlesRefused(cfg, row, row'', text, at);
        }
    }
  }

  /** Every record of the batch is settled by the reply, and every other row is as it was but for the mark. */
  ghost predicate BatchSettled(cfg: UploadConfig, rows: map<nat, Row>, rows': map<nat, Row>, batch: seq<Record>, reply: Reply, at: Times) {
    && rows'.Keys == rows.Keys
    && (forall i | 0 <= i < |batch| :: batch[i].sequence in rows'
          && Settles(cfg, batch[i].sequence, batch[i].row, rows'[batch[i].sequence], reply, at))
    && (forall t | t in rows' && t !in Sequences(batch) :: Untouched(rows[t], rows'[t]))
    && ((exists i | 0 <= i < |batch| :: Reschedules(cfg, batch[i], reply)) ==> AllMarked(rows'))
  }

  lemma OneMoreSettled(cfg: UploadConfig, rows: map<nat, Row>, rows': map<nat, Row>, rows'': map<nat, Row>, rest: seq<Record>, last: Record,
                       reply: Reply, at: Times)
    requires Ready(rows, rest + [last]) && BatchSettled(cfg, rows, rows', rest, reply, at)
    requires AsListed(rows', last) && RecordSettled(cfg, rows', rows'', last, reply, at)
    requires rows'[last.sequence].replay ==> rows''[last.sequence].replay
    ensures BatchSettled(cfg, rows, rows'', rest + [last], reply, at)
  {
    RestStaysSettled(cfg, rows, rows', rows'', rest, last, reply, at);
    MarksAfterOneMore(cfg, rows', rows'', rest, last, reply);
    OthersStayUntouched(cfg, rows, rows', rows'', rest, last);
    LastIsSettled(cfg, rows, rows', rows'', rest, last, reply, at);
  }

  lemma OthersStayUntouched(cfg: UploadConfig, rows: map<nat, Row>, rows': map<nat, Row>, rows'': map<nat, Row>, rest: seq<Record>, last: Record)
    requires rows'.Keys == rows.Keys && rows''.Keys == rows.Keys
    requires forall t | t in rows' && t !in Sequences(rest) :: Untouched(rows[t], rows'[t])
    requires forall t | t in rows'' && t != last.sequence :: Untouched(rows'[t], rows''[t])
    ensures forall t | t in rows'' && t !in Sequences(rest + [last]) :: Untouched(rows[t], rows''[t])
  {
    SplitLast(cfg, rest, last, Decoded([], []));
  }

  lemma LastIsSettled(cfg: UploadConfig, rows: map<nat, Row>, rows': map<nat, Row>, rows'': map<nat, Row>, rest: seq<Record>, last: Record,
                      reply: Reply, at: Times)
    requires AsListed(rows', last) && RecordSettled(cfg, rows', rows'', last, reply, at)
    requires forall i | 0 <= i < |rest| ::
      rest[i].sequence in rows'' && Settles(cfg, rest[i].sequence, rest[i].row, rows''[rest[i].sequence], reply, at)
    ensures var batch := rest + [last];
      forall i | 0 <= i < |batch| :: batch[i].sequence in rows'' && Settles(cfg, batch[i].sequence, batch[i].row, rows''[batch[i].sequence], reply, at)
  {
    var batch := rest + [last];
    assert batch[|rest|] == last;
    assert forall i | 0 <= i < |rest| :: batch[i] == rest[i];
  }

  lemma RestStaysSettled(cfg: UploadConfig, rows: map<nat, Row>, rows': map<nat, Row>, rows'': map<nat, Row>, rest: seq<Record>, last: Record,
                         reply: Reply, at: Times)
    requires Ready(rows, rest + [last]) && BatchSettled(cfg, rows, rows', rest, reply, at) && rows''.Keys == rows'.Keys
    requires forall t | t in rows'' && t != last.sequence :: Untouched(rows'[t], rows''[t])
    ensures forall i | 0 <= i < |rest| ::
      rest[i].sequence in rows'' && Settles(cfg, rest[i].sequence, rest[i].row, rows''[rest[i].sequence], reply, at)
  {
    var batch := rest + [last];
    forall i | 0 <= i < |rest| ensures Settles(cfg, rest[i].sequence, rest[i].row, rows''[rest[i].sequence], reply, at) {
      assert rest[i] == batch[i] && batch[i].sequence != batch[|rest|].sequence;
      SettlesStays(cfg, rest[i].sequence, rest[i].row, rows'[rest[i].sequence], rows''[rest[i].sequence], reply, at);
    }
  }

  lemma MarksAfterOneMore(cfg: UploadConfig, rows: map<nat, Row>, rows': map<nat, Row>, rest: seq<Record>, last: Record, reply: Reply)
    requires (exists i | 0 <= i < |rest| :: Reschedules(cfg, rest[i], reply)) ==> AllMarked(rows)
    requires Reschedules(cfg, last, reply) ==> AllMarked(rows')
    requires rows'.Keys == rows.Keys && AsListed(rows, last)
    requires forall t | t in rows && t != last.sequence :: Untouched(rows[t], rows'[t])
    requires rows[last.sequence].replay ==> rows'[last.sequence].replay
    ensures (exists i | 0 <= i < |rest + [last]| :: Reschedules(cfg, (rest + [last])[i], reply)) ==> AllMarked(rows')
  {
    if i: nat :| i < |rest + [last]| && Reschedules(cfg, (rest + [last])[i], reply) {
      if i < |rest| {
        assert Reschedules(cfg, rest[i], reply);
        StaysMarked(last, rows, rows');
      }
    }
  }

  lemma StaysMarked(last: Record, rows: map<nat, Row>, rows': map<nat, Row>)
    requires AllMarked(rows) && rows'.Keys == rows.Keys && AsListed(rows, last)
    requires forall t | t in rows && t != last.sequence :: Untouched(rows[t], rows'[t])
    requires rows[last.sequence].replay ==> rows'[last.sequence].replay
    ensures AllMarked(rows')
  {
  }

  lemma {:induction false} BatchRows(cfg: UploadConfig, db: EdgeDb, batch: seq<Record>, reply: Reply, at: Times)
    requires cfg.Valid() && Ready(db.rows, batch) && NonEmptyCause(reply)
    ensures BatchSettled(cfg, db.rows, HandleBatch(cfg, db, batch, reply, at).rows, batch, reply, at)
  {
    if batch != [] {
      var n := |batch| - 1;
      var rest, last := batch[..n], batch[n];
      assert batch == rest + [last];
      BatchRows(cfg, db, rest, reply, at);
      var before := HandleBatch(cfg, db, rest, reply, at);
      LastIsListed(cfg, db.rows, before.rows, rest, last, reply, at);
      RecordRow(cfg, before, last, reply, at);
      if before.rows[last.sequence].replay {
        HandlingKeepsMark(cfg, before, last, reply, at);
      }
      OneMoreSettled(cfg, db.rows, before.rows, HandleRecord(cfg, before, last, reply, at).rows, rest, last, reply, at);
    }
  }

  lemma LastIsListed(cfg: UploadConfig, rows: map<nat, Row>, rows': map<nat, Row>, rest: seq<Record>, last: Record, reply: Reply, at: Times)
    requires Ready(rows, rest + [last]) && BatchSettled(cfg, rows, rows', rest, reply, at)
    ensures AsListed(rows', last) && Ready(rows, rest)
  {
    var batch := rest + [last];
    assert batch[|rest|] == last;
    forall i | 0 <= i < |rest| ensures AsListed(rows, rest[i]) && rest[i].sequence != last.sequence {
      assert batch[i] == rest[i];
    }
    forall i, j | 0 <= i < j < |rest| ensures rest[i].sequence != rest[j].sequence {
      assert batch[i] == rest[i] && batch[j] == rest[j];
    }
  }

  lemma HandlingKeepsMark(cfg: UploadConfig, db: EdgeDb, record: Record, reply: Reply, at: Times)
    requires record.sequence in db.rows && db.rows[record.sequence].replay
    ensures record.sequence in HandleRecord(cfg, db, record, reply, at).rows && HandleRecord(cfg, db, record, reply, at).rows[record.sequence].replay
  {
    var s, retryAt := record.sequence, RetryTime(cfg, record.row.attempts, at.failed);
    match reply {
      case RequestFailed(cause) => FailureKeepsMark(db, s, retryAt, Truncate(cause), false);
      case Decoded(_, rejected) =>
        FailureKeepsMark(db, s, retryAt, Cause(rejected, s), true);
        SettlementKeepsMark(db, s, at.sent, Cause(rejected, s));
    }
  }

  lemma FailureKeepsMark(db: EdgeDb, s: nat, retryAt: int, cause: string, rejected: bool)
    requires s in db.rows && db.rows[s].replay
    ensures s in MarkFailed(db, s, retryAt, cause, rejected).0.rows && MarkFailed(db, s, retryAt, cause, rejected).0.rows[s].replay
  {
  }

  lemma SettlementKeepsMark(db: EdgeDb, s: nat, sentAt: int, cause: string)
    requires s in db.rows && db.rows[s].replay
    ensures s in CompleteUpload(db, s, sentAt).0.rows && CompleteUpload(db, s, sentAt).0.rows[s].replay
    ensures s in Abandon(db, s, cause).0.rows && Abandon(db, s, cause).0.rows[s].replay
  {
  }

  /**
   The effect of one round on the queue, in full: each record of the batch as the reply says, every other row
   unchanged but for the mark.
   */
  lemma RoundSettlesBatch(cfg: UploadConfig, db: EdgeDb, batch: seq<Record>, reply: Reply, at: Times)
    requires cfg.Valid() && Ready(db.rows, batch) && NonEmptyCause(reply)
    ensures BatchSettled(cfg, db.rows, Round(cfg, db, batch, reply, at).rows, batch, reply, at)
  {
    var start := if reply.RequestFailed? then ContactFailure(db, Truncate(reply.cause)) else db;
    assert start.rows == db.rows;
    BatchRows(cfg, start, batch, reply, at);
  }

  /**
   A failed request, record by record: pending again after the backoff of its attempts, no try consumed, and the
   whole queue marked.
   */
  lemma FailedRoundReschedules(cfg: UploadConfig, db: EdgeDb, batch: seq<Record>, cause: string, at: Times, i: nat)
    requires cfg.Valid() && Ready(db.rows, batch) && cause != "" && i < |batch|
    ensures var db' := Round(cfg, db, batch, RequestFailed(cause), at);
      && batch[i].sequence in db'.rows
      && PutOff(cfg, batch[i].row, db'.rows[batch[i].sequence], cause, at.failed)
      && AllMarked(db'.rows) && db'.sync.replayMode
  {
    RoundSettlesBatch(cfg, db, batch, RequestFailed(cause), at);
    FailureTurnsReplayOn(cfg, ContactFailure(db, Truncate(cause)), batch, cause, at);
    SettledIsPutOff(cfg, db.rows, Round(cfg, db, batch, RequestFailed(cause), at).rows, batch, cause, at, i);
  }

  /** Pending again with one more attempt, the text of the failure and a later time; no rejection is counted. */
  predicate PutOff(cfg: UploadConfig, row: Row, row': Row, cause: string, failedAt: int) {
    && row'.status == PendingUpload && row'.event == row.event && row'.replay
    && row'.attempts == row.attempts + 1 && row'.rejections == row.rejections
    && row'.nextAttempt == Some(failedAt + Backoff(cfg.baseDelay, cfg.maxDelay, row.attempts))
    && row'.lastError.Some? && Shortened(cause, row'.lastError.value)
  }

  lemma SettledIsPutOff(cfg: UploadConfig, rows: map<nat, Row>, rows': map<nat, Row>, batch: seq<Record>, cause: string, at: Times, i: nat)
    requires i < |batch| && Ready(rows, batch) && BatchSettled(cfg, rows, rows', batch, RequestFailed(cause), at)
    ensures batch[i].sequence in rows' && PutOff(cfg, batch[i].row, rows'[batch[i].sequence], cause, at.failed) && AllMarked(rows')
  {
    assert AsListed(rows, batch[i]) && Reschedules(cfg, batch[i], RequestFailed(cause));
    assert Settles(cfg, batch[i].sequence, batch[i].row, rows'[batch[i].sequence], RequestFailed(cause), at);
  }

  lemma {:induction false} FailureTurnsReplayOn(cfg: UploadConfig, db: EdgeDb, batch: seq<Record>, cause: string, at: Times)
    requires db.sync.replayMode
    ensures HandleBatch(cfg, db, batch, RequestFailed(cause), at).sync.replayMode
  {
    if batch != [] {
      FailureTurnsReplayOn(cfg, db, batch[..|batch| - 1], cause, at);
    }
  }

  // ---- Incidents and contact ----

  /**
   What the reply means for the incident of a record: delivered, or one more upload failure while it is open and
   undelivered.
   */
  predicate IncidentSettled(before: Incident, after: Incident, accepted: bool, sentAt: int) {
    && (accepted ==> after == before.(deliveredAt := Some(sentAt)))
    && (!accepted && before.resolvedAt.None? && before.deliveredAt.None? ==> after == before.(uploadFailures := before.uploadFailures + 1))
    && (!accepted && !(before.resolvedAt.None? && before.deliveredAt.None?) ==> after == before)
  }

  /** The incidents of these records are settled, and no other incident is touched. */
  ghost predicate IncidentsSettled(before: map<nat, Incident>, after: map<nat, Incident>, records: set<nat>, reply: Reply, sentAt: int) {
    && after.Keys == before.Keys
    && forall s | s in after ::
         (s in records ==> IncidentSettled(before[s], after[s], InAccepted(reply, s), sentAt)) && (s !in records ==> after[s] == before[s])
  }

  predicate InAccepted(reply: Reply, s: nat) {
    reply.Decoded? && s in reply.accepted
  }

  lemma RefusalKeepsIncidents(cfg: UploadConfig, db: EdgeDb, record: Record, reply: Reply, at: Times)
    requires !InAccepted(reply, record.sequence)
    ensures Dispose(cfg, db, record, reply, at).incidents == db.incidents
  {
  }

  lemma RecordIncidents(cfg: UploadConfig, db: EdgeDb, record: Record, reply: Reply, at: Times)
    requires AsListed(db.rows, record)
    ensures IncidentsSettled(db.incidents, HandleRecord(cfg, db, record, reply, at).incidents, {record.sequence}, reply, at.sent)
  {
    if InAccepted(reply, record.sequence) {
      AcceptanceWrites(db, record.sequence, at.sent);
    } else {
      RefusalKeepsIncidents(cfg, db, record, reply, at);
    }
  }

  /** The incidents of the batch are settled with their records, and no other incident is touched. */
  lemma {:induction false} BatchIncidents(cfg: UploadConfig, db: EdgeDb, batch: seq<Record>, reply: Reply, at: Times)
    requires cfg.Valid() && Ready(db.rows, batch) && NonEmptyCause(reply)
    ensures IncidentsSettled(db.incidents, HandleBatch(cfg, db, batch, reply, at).incidents, Sequences(batch), reply, at.sent)
  {
    if batch != [] {
      var n := |batch| - 1;
      var rest, last := batch[..n], batch[n];
      assert batch == rest + [last];
      BatchRows(cfg, db, rest, reply, at);
      BatchIncidents(cfg, db, rest, reply, at);
      var before := HandleBatch(cfg, db, rest, reply, at);
      LastIsListed(cfg, db.rows, before.rows, rest, last, reply, at);
      RecordIncidents(cfg, before, last, reply, at);
      LastIsNew(rest, last);
      SplitLast(cfg, rest, last, Decoded([], []));
      IncidentsCompose(db.incidents, before.incidents, HandleRecord(cfg, before, last, reply, at).incidents, Sequences(rest), last.sequence, reply, at.sent);
    }
  }

  lemma LastIsNew(rest: seq<Record>, last: Record)
    requires DistinctRecords(rest + [last])
    ensures last.sequence !in Sequences(rest)
  {
    forall r | r in rest ensures r.sequence != last.sequence {
      var i :| 0 <= i < |rest| && rest[i] == r;
      assert (rest + [last])[i].sequence != (rest + [last])[|rest|].sequence;
    }
  }

  lemma IncidentsCompose(a: map<nat, Incident>, b: map<nat, Incident>, c: map<nat, Incident>, records: set<nat>, s: nat, reply: Reply, sentAt: int)
    requires IncidentsSettled(a, b, records, reply, sentAt) && IncidentsSettled(b, c, {s}, reply, sentAt) && s !in records
    ensures IncidentsSettled(a, c, records + {s}, reply, sentAt)
  {
  }

  lemma RoundSettlesIncidents(cfg: UploadConfig, db: EdgeDb, batch: seq<Record>, reply: Reply, at: Times)
    requires cfg.Valid() && Ready(db.rows, batch) && NonEmptyCause(reply)
    ensures IncidentsSettled(db.incidents, Round(cfg, db, batch, reply, at).incidents, Sequences(batch), reply, at.sent)
  {
    var start := if reply.RequestFailed? then ContactFailure(db, Truncate(reply.cause)) else db;
    BatchIncidents(cfg, start, batch, reply, at);
  }

  /** How many records of the batch the reply refuses for the last time. */
  function LastRefusals(cfg: UploadConfig, batch: seq<Record>, reply: Reply): nat {
    if batch == [] then 0
    else
      var n := |batch| - 1;
      LastRefusals(cfg, batch[..n], reply)
      + (if reply.Decoded? && batch[n].sequence !in reply.accepted && batch[n].row.rejections + 1 >= cfg.maxRetries then 1 else 0)
  }

  /** Everything of the database a round does not deal with. */
  predicate SameElsewhere(db: EdgeDb, db': EdgeDb) {
    db'.lastSequence == db.lastSequence && db'.attempts == db.attempts && db'.debounce == db.debounce
    && db'.heartbeats == db.heartbeats && db'.lastHeartbeat == db.lastHeartbeat
  }

  lemma RecordCounts(cfg: UploadConfig, db: EdgeDb, record: Record, reply: Reply, at: Times)
    requires AsListed(db.rows, record) && NonEmptyCause(reply)
    ensures var db' := HandleRecord(cfg, db, record, reply, at);
      && SameElsewhere(db, db')
      && db'.sync.abandonedCount == db.sync.abandonedCount + LastRefusals(cfg, [record], reply)
      && (reply.RequestFailed? ==> db'.sync.lastSuccess == db.sync.lastSuccess && db'.sync.lastFailure == Some(Truncate(reply.cause)))
  {
    var s := record.sequence;
    match reply {
      case RequestFailed(cause) => FailureWrites(db, s, RetryTime(cfg, record.row.attempts, at.failed), Truncate(cause), false);
      case Decoded(accepted, rejected) =>
        CauseNonEmpty(rejected, s);
        if s in accepted {
          AcceptanceWrites(db, s, at.sent);
        } else if LastTry(cfg, record) {
          AbandonmentWrites(db, s, Cause(rejected, s));
        } else if |Cause(rejected, s)| <= 2048 {
          FailureWrites(db, s, RetryTime(cfg, record.row.attempts, at.failed), Cause(rejected, s), true);
        }
    }
  }

  lemma {:induction false} BatchCounts(cfg: UploadConfig, db: EdgeDb, batch: seq<Record>, reply: Reply, at: Times)
    requires cfg.Valid() && Ready(db.rows, batch) && NonEmptyCause(reply)
    ensures var db' := HandleBatch(cfg, db, batch, reply, at);
      && SameElsewhere(db, db')
      && db'.sync.abandonedCount == db.sync.abandonedCount + LastRefusals(cfg, batch, reply)
      && (reply.RequestFailed? ==> db'.sync.lastSuccess == db.sync.lastSuccess)
      && (reply.RequestFailed? ==> db'.sync.lastFailure == if batch == [] then db.sync.lastFailure else Some(Truncate(reply.cause)))
  {
    if batch != [] {
      var n := |batch| - 1;
      var rest, last := batch[..n], batch[n];
      assert batch == rest + [last];
      BatchRows(cfg, db, rest, reply, at);
      BatchCounts(cfg, db, rest, reply, at);
      var before := HandleBatch(cfg, db, rest, reply, at);
      LastIsListed(cfg, db.rows, before.rows, rest, last, reply, at);
      RecordCounts(cfg, before, last, reply, at);
      assert LastRefusals(cfg, [last][..0], reply) == 0;
    }
  }

  /**
   Contact with the service, as status and later drains see it: the time of the last answer, or the text of the
   last failure; abandonments are counted one by one.
   */
  lemma RoundRecordsContact(cfg: UploadConfig, db: EdgeDb, batch: seq<Record>, reply: Reply, at: Times)
    requires cfg.Valid() && Ready(db.rows, batch) && NonEmptyCause(reply)
    ensures var db' := Round(cfg, db, batch, reply, at);
      && SameElsewhere(db, db')
      && db'.sync.abandonedCount == db.sync.abandonedCount + LastRefusals(cfg, batch, reply)
      && (reply.Decoded? ==> db'.sync.lastSuccess == Some(at.sent) && db'.sync.lastFailure.None?)
      && (reply.Decoded? ==> (db'.sync.replayMode <==> exists s :: s in db'.rows && db'.rows[s].status.Active() && db'.rows[s].replay))
      && (reply.RequestFailed? ==> db'.sync.lastSuccess == db.sync.lastSuccess && db'.sync.replayMode)
      && (reply.RequestFailed? ==> db'.sync.lastFailure.Some? && Shortened(reply.cause, db'.sync.lastFailure.value))
  {
    var start := if reply.RequestFailed? then ContactFailure(db, Truncate(reply.cause)) else db;
    BatchCounts(cfg, start, batch, reply, at);
    if reply.RequestFailed? {
      FailureTurnsReplayOn(cfg, start, batch, reply.cause, at);
      assert Shortened(reply.cause, Truncate(reply.cause));
    }
  }
}
