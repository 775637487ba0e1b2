/** Every step of the pipeline keeps its invariant: one lemma per step, built from what each queue move leaves alone. */
module PipelineSteps {
  import opened Prelude
  import opened EdgeModel
  import opened QueueLaws
  import opened EdgeStore
  import opened Uploader
  import opened Pipeline

  // ---- Moves of the queue ----

  predicate LegalStatus(a: Status, b: Status) {
    || a == b
    || (a == Persisted && b == PendingUpload)
    || (a == PendingUpload && (b == Acknowledged || b == Abandoned))
  }

  /** Forward moves that settle a record only from the head of its device's line. */
  ghost predicate LegalMove(db: EdgeDb, db': EdgeDb) {
    && Evolves(db, db')
    && (forall s | s in db'.rows :: LegalStatus(db.rows[s].status, db'.rows[s].status))
    && (forall s | s in db'.rows && db.rows[s].status.Active() && !db'.rows[s].status.Active() ::
          HeadOfLine(db.rows, s, db.rows[s].event.deviceId))
  }

  lemma LegalMoveKeepsOrder(db: EdgeDb, db': EdgeDb, inserted: map<nat, Event>)
    requires LegalMove(db, db') && InOrder(db.rows, inserted)
    requires forall s | s in db.rows :: s in inserted && db.rows[s].event == inserted[s]
    ensures InOrder(db'.rows, inserted)
  {
    forall i, j | i in inserted && j in inserted && i < j && inserted[i].deviceId == inserted[j].deviceId && Owed(db'.rows, i)
      ensures Owed(db'.rows, j)
    {
      assert RowEvolves(db.rows[i], db'.rows[i]);
      assert Owed(db.rows, i) && Owed(db.rows, j);
    }
  }

  lemma LegalMoveKeepsAccount(db: EdgeDb, db': EdgeDb, h: History, s: nat)
    requires LegalMove(db, db') && Account(db.rows, h, s)
    ensures Account(db'.rows, Observe(h, db, db'), s)
  {
    var h' := Observe(h, db, db');
    if s in db'.rows {
      assert LegalStatus(db.rows[s].status, db'.rows[s].status);
      assert s in h'.acked <==> s in h.acked || db'.rows[s].status == Acknowledged;
      assert s in h'.abandoned <==> s in h.abandoned || db'.rows[s].status == Abandoned;
    } else {
      assert s in h'.acked <==> s in h.acked;
      assert s in h'.abandoned <==> s in h.abandoned;
    }
  }

  lemma NothingInserted(db: EdgeDb, db': EdgeDb, h: History)
    requires Evolves(db, db') && Books(db, h)
    ensures Observe(h, db, db').inserted == h.inserted
  {
    assert forall s | s in db'.rows :: s in h.inserted;
  }

  lemma LegalMoveKeepsBooks(db: EdgeDb, db': EdgeDb, h: History)
    requires LegalMove(db, db') && Books(db, h)
    requires db'.sync.abandonedCount - db.sync.abandonedCount == |Observe(h, db, db').abandoned| - |h.abandoned|
    ensures Books(db', Observe(h, db, db'))
  {
    var h' := Observe(h, db, db');
    NothingInserted(db, db', h);
    forall s | s in h'.inserted ensures Account(db'.rows, h', s) {
      LegalMoveKeepsAccount(db, db', h, s);
    }
    forall s | s in db'.rows ensures Authentic(db'.rows[s].event, db'.rows[s].code, h'.inserted[s]) {
      assert RowEvolves(db.rows[s], db'.rows[s]);
    }
    assert db'.sync.abandonedCount == |h'.abandoned|;
  }

  lemma UnchangedAbandonment(db: EdgeDb, db': EdgeDb, h: History)
    requires Books(db, h)
    requires forall s | s in db'.rows && db'.rows[s].status == Abandoned :: s in db.rows && db.rows[s].status == Abandoned
    ensures Observe(h, db, db').abandoned == h.abandoned
  {
    forall s | s in db'.rows && db'.rows[s].status == Abandoned ensures s in h.abandoned {
      assert Account(db.rows, h, s);
    }
  }

  lemma LegalMoveKeepsQueue(cfg: Config, db: EdgeDb, db': EdgeDb)
    requires LegalMove(db, db') && QueueKept(cfg, db)
    requires ReplayProvenance(db') && OneUnresolved(db'.incidents)
    requires forall s | s in db'.incidents :: 1 <= s <= db.lastSequence
    ensures QueueKept(cfg, db')
  {
    EvolvingFreesBytes(db, db', PRIORITY_NORMAL);
    forall s | s in db'.rows ensures WellFormedEvent(db'.rows[s].event) {
      assert RowEvolves(db.rows[s], db'.rows[s]);
    }
  }

  /** Pending records stay pending, and no rejection is counted. */
  ghost predicate Steady(rows: map<nat, Row>, rows': map<nat, Row>) {
    && (forall s | s in rows && rows[s].status == PendingUpload :: s in rows' && rows'[s].status == PendingUpload)
    && (forall s | s in rows' && s in rows :: rows'[s].rejections == rows[s].rejections)
  }

  lemma StaysHead(db: EdgeDb, db': EdgeDb, s: nat, deviceId: string)
    requires Evolves(db, db') && HeadOfLine(db.rows, s, deviceId)
    ensures HeadOfLine(db'.rows, s, deviceId)
  {
    forall e | e in db'.rows && e < s && db'.rows[e].event.deviceId == deviceId ensures !db'.rows[e].status.Active() {
      assert RowEvolves(db.rows[e], db'.rows[e]);
    }
  }

  lemma StaysFresh(db: EdgeDb, db': EdgeDb, r: Record)
    requires Evolves(db, db') && Fresh(db.rows, r)
    requires r.sequence in db'.rows && db'.rows[r.sequence].status == PendingUpload
    requires db'.rows[r.sequence].rejections == db.rows[r.sequence].rejections
    ensures Fresh(db'.rows, r)
  {
    assert RowEvolves(db.rows[r.sequence], db'.rows[r.sequence]);
    StaysHead(db, db', r.sequence, r.row.event.deviceId);
  }

  lemma SteadyKeepsFresh(db: EdgeDb, db': EdgeDb, batch: seq<Record>, next: nat)
    requires Evolves(db, db') && Steady(db.rows, db'.rows) && FreshFrom(db.rows, batch, next)
    ensures FreshFrom(db'.rows, batch, next)
  {
    forall i | next <= i < |batch| ensures Fresh(db'.rows, batch[i]) {
      assert Fresh(db.rows, batch[i]);
      StaysFresh(db, db', batch[i]);
    }
  }

  lemma NothingAcked(db: EdgeDb, db': EdgeDb, h: History)
    requires Books(db, h)
    requires forall s | s in db'.rows && db'.rows[s].status == Acknowledged :: s in db.rows && db.rows[s].status == Acknowledged
    ensures Observe(h, db, db').acked == h.acked
  {
    forall s | s in db'.rows && db'.rows[s].status == Acknowledged ensures s in h.acked {
      assert Account(db.rows, h, s);
    }
  }

  lemma SteadyKeepsLink(db: EdgeDb, db': EdgeDb, inserted: map<nat, Event>, link: Link, topic: set<Message>)
    requires Evolves(db, db') && Steady(db.rows, db'.rows) && LinkKept(db.rows, inserted, link, topic)
    ensures LinkKept(db'.rows, inserted, link, topic)
  {
    match link {
      case Idle =>
      case Sent(batch, _) => SteadyKeepsFresh(db, db', batch, 0);
      case Answered(batch, _, next) => SteadyKeepsFresh(db, db', batch, next);
    }
  }

  lemma SameDelivery(w: World, w': World)
    requires Delivered(w) && w'.topic == w.topic && w'.sent == w.sent
    requires w'.history.acked == w.history.acked && w'.history.inserted == w.history.inserted
    ensures Delivered(w')
  {
  }

  lemma SteadyKeepsBudget(cfg: UploadConfig, db: EdgeDb, db': EdgeDb, h: History)
    requires Evolves(db, db') && Steady(db.rows, db'.rows) && Budget(cfg, db.rows, h)
    requires Observe(h, db, db').abandoned == h.abandoned
    ensures Budget(cfg, db'.rows, Observe(h, db, db'))
  {
    var h' := Observe(h, db, db');
    forall s | s in db'.rows ensures db'.rows[s].rejections <= Refusals(h', s) {
      assert Refusals(h', s) == Refusals(h, s);
    }
    forall s | s in h'.abandoned ensures Refusals(h', s) >= cfg.maxRetries {
      assert Refusals(h', s) == Refusals(h, s);
    }
  }

  lemma SteadyKeepsTries(cfg: UploadConfig, db: EdgeDb, db': EdgeDb)
    requires LegalMove(db, db') && Steady(db.rows, db'.rows) && Tries(cfg, db.rows)
    requires forall s | s in db'.rows && db'.rows[s].status == Abandoned :: db.rows[s].status == Abandoned
    ensures Tries(cfg, db'.rows)
  {
    forall s | s in db'.rows ensures LegalStatus(db.rows[s].status, db'.rows[s].status) && db'.rows[s].rejections == db.rows[s].rejections {
    }
  }

  /** A legal move that settles no record and counts no rejection. */
  ghost predicate Quiet(db: EdgeDb, db': EdgeDb) {
    && LegalMove(db, db')
    && Steady(db.rows, db'.rows)
    && db'.sync.abandonedCount == db.sync.abandonedCount
    && (forall s | s in db'.rows && !db'.rows[s].status.Active() :: db'.rows[s].status == db.rows[s].status)
  }

  lemma QuietHistory(db: EdgeDb, db': EdgeDb, h: History)
    requires Quiet(db, db') && Books(db, h)
    ensures var h' := Observe(h, db, db');
      h'.abandoned == h.abandoned && h'.acked == h.acked && h'.inserted == h.inserted
  {
    RevivalKeepsHistory(db, db', h);
  }

  lemma QuietKeepsTries(cfg: UploadConfig, db: EdgeDb, db': EdgeDb)
    requires Quiet(db, db') && Tries(cfg, db.rows)
    ensures Tries(cfg, db'.rows)
  {
    SteadyKeepsTries(cfg, db, db');
  }

  lemma QuietKeepsBooks(cfg: UploadConfig, db: EdgeDb, db': EdgeDb, h: History)
    requires Quiet(db, db') && Books(db, h) && InOrder(db.rows, h.inserted) && Budget(cfg, db.rows, h)
    ensures Books(db', Observe(h, db, db')) && InOrder(db'.rows, Observe(h, db, db').inserted)
    ensures Budget(cfg, db'.rows, Observe(h, db, db'))
  {
    QuietHistory(db, db', h);
    LegalMoveKeepsBooks(db, db', h);
    LegalMoveKeepsOrder(db, db', h.inserted);
    SteadyKeepsBudget(cfg, db, db', h);
  }

  lemma QuietMoveKeepsInv(setup: Setup, w: World, db': EdgeDb)
    requires Inv(setup, w) && Quiet(w.db, db') && QueueKept(setup.queue, db')
    ensures Inv(setup, Move(w, db'))
  {
    QuietHistory(w.db, db', w.history);
    QuietKeepsBooks(setup.upload, w.db, db', w.history);
    QuietKeepsTries(setup.upload, w.db, db');
    SteadyKeepsLink(w.db, db', w.history.inserted, w.link, w.topic);
    SameDelivery(w, Move(w, db'));
  }

  lemma PendingIsQuiet(db: EdgeDb, s: nat)
    ensures Quiet(db, MarkPendingUpload(db, s).0)
  {
    PendingEvolves(db, s);
    var db' := MarkPendingUpload(db, s).0;
    if s in db.rows {
      assert db'.rows == db.rows || (db.rows[s].status == Persisted && db'.rows[s].status == PendingUpload);
    }
  }

  lemma PurgeIsQuiet(db: EdgeDb, cutoff: int)
    ensures Quiet(db, Purge(db, cutoff))
  {
    PurgeEvolves(db, cutoff);
  }

  lemma SameRowsAreQuiet(db: EdgeDb, db': EdgeDb)
    requires db'.rows == db.rows && db'.lastSequence == db.lastSequence && db.incidents.Keys <= db'.incidents.Keys
    requires db'.sync.abandonedCount == db.sync.abandonedCount
    ensures Quiet(db, db')
  {
  }

  lemma PendingKeepsQueue(cfg: Config, db: EdgeDb, s: nat)
    requires QueueKept(cfg, db)
    ensures QueueKept(cfg, MarkPendingUpload(db, s).0)
  {
    PendingIsQuiet(db, s);
    PendingKeepsProvenance(db, s);
    PendingKeepsIncidents(db, s);
    QuietKeepsQueue(cfg, db, MarkPendingUpload(db, s).0);
  }

  lemma PendingKeepsIncidents(db: EdgeDb, s: nat)
    ensures MarkPendingUpload(db, s).0.incidents == db.incidents
  {
  }

  lemma QuietKeepsQueue(cfg: Config, db: EdgeDb, db': EdgeDb)
    requires Quiet(db, db') && QueueKept(cfg, db) && ReplayProvenance(db') && db'.incidents == db.incidents
    ensures QueueKept(cfg, db')
  {
    LegalMoveKeepsQueue(cfg, db, db');
  }

  lemma PendingStepKeepsInv(setup: Setup, w: World, s: nat)
    requires Inv(setup, w)
    ensures Inv(setup, Move(w, MarkPendingUpload(w.db, s).0))
  {
    PendingIsQuiet(w.db, s);
    PendingKeepsQueue(setup.queue, w.db, s);
    QuietMoveKeepsInv(setup, w, MarkPendingUpload(w.db, s).0);
  }

  lemma PurgeStepKeepsInv(setup: Setup, w: World, cutoff: int)
    requires Inv(setup, w)
    ensures Inv(setup, Move(w, Purge(w.db, cutoff)))
  {
    PurgeIsQuiet(w.db, cutoff);
    PurgeKeepsProvenance(w.db, cutoff);
    LegalMoveKeepsQueue(setup.queue, w.db, Purge(w.db, cutoff));
    QuietMoveKeepsInv(setup, w, Purge(w.db, cutoff));
  }

  lemma ContactStepKeepsInv(setup: Setup, w: World, at: int, cause: Option<string>)
    requires Inv(setup, w)
    ensures Inv(setup, Move(w, Contacted(w.db, at, cause)))
  {
    var db' := Contacted(w.db, at, cause);
    ContactKeepsProvenance(w.db, at, if cause.Some? then cause.value else "");
    SameRowsAreQuiet(w.db, db');
    LegalMoveKeepsQueue(setup.queue, w.db, db');
    QuietMoveKeepsInv(setup, w, db');
  }

  lemma FallbackStepKeepsInv(setup: Setup, w: World, to: EdgeDb)
    requires Inv(setup, w) && OffQueue(w.db, to)
    ensures Inv(setup, Move(w, to))
  {
    SameRowsAreQuiet(w.db, to);
    LegalMoveKeepsQueue(setup.queue, w.db, to);
    QuietMoveKeepsInv(setup, w, to);
  }

  // ---- Insertion ----

  /** One new record, numbered after every record there has ever been. */
  ghost predicate Appends(db: EdgeDb, db': EdgeDb, row: Row) {
    && row.status in {Persisted, PendingUpload} && row.rejections == 0 && row.code == row.event.code
    && db' == db.(rows := db.rows[db.lastSequence + 1 := row], lastSequence := db.lastSequence + 1)
  }

  lemma InsertAppends(cfg: Config, db: EdgeDb, e: Event, status: Status, now: int, disk: Disk)
    requires status in {Persisted, PendingUpload} && Refusal(cfg, db, e, disk).None?
    ensures Appends(db, Insert(cfg, db, e, status, now, disk).0, NewRow(db, e, status, now))
  {
  }

  lemma InsertKeepsQueue(cfg: Config, db: EdgeDb, e: Event, status: Status, now: int, disk: Disk)
    requires status.Active() && QueueKept(cfg, db)
    ensures QueueKept(cfg, Insert(cfg, db, e, status, now, disk).0)
  {
    InsertKeepsCapacity(cfg, db, e, status, now, disk);
    InsertKeepsProvenance(cfg, db, e, status, now, disk);
  }

  lemma AppendKeepsAccount(db: EdgeDb, db': EdgeDb, row: Row, h: History, s: nat)
    requires Appends(db, db', row) && Books(db, h) && 1 <= s <= db'.lastSequence
    ensures Account(db'.rows, Observe(h, db, db'), s)
  {
    var h' := Observe(h, db, db');
    if s == db'.lastSequence {
      assert s !in h.inserted;
      assert db'.rows[s] == row;
    } else {
      assert Account(db.rows, h, s);
      assert s in h'.acked <==> s in h.acked;
      assert s in h'.abandoned <==> s in h.abandoned;
      assert s in h'.purged <==> s in h.purged;
    }
  }

  lemma AppendInserts(rows: map<nat, Row>, db: EdgeDb, db': EdgeDb, n: nat, row: Row, h: History)
    requires db.rows == rows && db'.rows == rows[n := row] && rows.Keys <= h.inserted.Keys && n !in h.inserted
    ensures Observe(h, db, db').inserted == h.inserted[n := row.event]
    ensures Observe(h, db, db').purged == h.purged
  {
    var inserted := Observe(h, db, db').inserted;
    assert inserted.Keys == h.inserted.Keys + {n};
    assert forall s | s in inserted :: inserted[s] == h.inserted[n := row.event][s];
    assert rows.Keys - db'.rows.Keys == {};
  }

  lemma AppendSettles(db: EdgeDb, db': EdgeDb, row: Row, h: History)
    requires Appends(db, db', row) && Books(db, h)
    ensures Observe(h, db, db').acked == h.acked && Observe(h, db, db').abandoned == h.abandoned
  {
    assert forall s | s in db'.rows && !db'.rows[s].status.Active() :: s in db.rows && db'.rows[s] == db.rows[s];
    UnchangedAbandonment(db, db', h);
    NothingAcked(db, db', h);
  }

  lemma AppendHistory(db: EdgeDb, db': EdgeDb, row: Row, h: History)
    requires Appends(db, db', row) && Books(db, h)
    ensures var h' := Observe(h, db, db');
      h'.inserted == h.inserted[db'.lastSequence := row.event] && h'.acked == h.acked && h'.abandoned == h.abandoned && h'.purged == h.purged
  {
    AppendSettles(db, db', row, h);
    AppendInserts(db.rows, db, db', db'.lastSequence, row, h);
  }

  lemma AppendKeepsBooks(db: EdgeDb, db': EdgeDb, row: Row, h: History)
    requires Appends(db, db', row) && Books(db, h)
    ensures Books(db', Observe(h, db, db'))
  {
    AppendHistory(db, db', row, h);
    forall s | 1 <= s <= db'.lastSequence ensures Account(db'.rows, Observe(h, db, db'), s) {
      AppendKeepsAccount(db, db', row, h, s);
    }
  }

  lemma AppendKeepsOrder(db: EdgeDb, db': EdgeDb, row: Row, h: History)
    requires Appends(db, db', row) && Books(db, h) && InOrder(db.rows, h.inserted)
    ensures InOrder(db'.rows, Observe(h, db, db').inserted)
  {
    AppendHistory(db, db', row, h);
    var inserted := Observe(h, db, db').inserted;
    forall i, j | i in inserted && j in inserted && i < j && inserted[i].deviceId == inserted[j].deviceId && Owed(db'.rows, i)
      ensures Owed(db'.rows, j)
    {
      if j == db'.lastSequence {
        assert db'.rows[j] == row;
      } else {
        assert Owed(db.rows, i) && Owed(db.rows, j);
      }
    }
  }

  lemma AppendKeepsFresh(db: EdgeDb, db': EdgeDb, row: Row, batch: seq<Record>, next: nat)
    requires Appends(db, db', row) && WellFormed(db) && FreshFrom(db.rows, batch, next)
    ensures FreshFrom(db'.rows, batch, next)
  {
    forall i | next <= i < |batch| ensures Fresh(db'.rows, batch[i]) {
      assert Fresh(db.rows, batch[i]);
    }
  }

  lemma AppendKeepsLink(db: EdgeDb, db': EdgeDb, row: Row, h: History, link: Link, topic: set<Message>)
    requires Appends(db, db', row) && WellFormed(db) && Books(db, h) && LinkKept(db.rows, h.inserted, link, topic)
    ensures LinkKept(db'.rows, Observe(h, db, db').inserted, link, topic)
  {
    AppendHistory(db, db', row, h);
    match link {
      case Idle =>
      case Sent(batch, _) => AppendKeepsFresh(db, db', row, batch, 0);
      case Answered(batch, _, next) => AppendKeepsFresh(db, db', row, batch, next);
    }
  }

  lemma AppendKeepsBudget(cfg: UploadConfig, db: EdgeDb, db': EdgeDb, row: Row, h: History)
    requires Appends(db, db', row) && Books(db, h) && Budget(cfg, db.rows, h)
    ensures Budget(cfg, db'.rows, Observe(h, db, db'))
  {
    AppendSettles(db, db', row, h);
  }

  lemma AppendKeepsTries(cfg: UploadConfig, db: EdgeDb, db': EdgeDb, row: Row)
    requires Appends(db, db', row) && Tries(cfg, db.rows)
    ensures Tries(cfg, db'.rows)
  {
  }

  lemma GrownDelivery(w: World, w': World)
    requires Delivered(w) && w'.topic == w.topic && w'.sent == w.sent
    requires w'.history.acked == w.history.acked
    requires forall s | s in w.history.inserted :: s in w'.history.inserted && w'.history.inserted[s] == w.history.inserted[s]
    ensures Delivered(w')
  {
  }

  lemma AppendKeepsDelivery(w: World, db': EdgeDb, row: Row)
    requires Appends(w.db, db', row) && Books(w.db, w.history) && Delivered(w)
    ensures Delivered(Move(w, db'))
  {
    AppendHistory(w.db, db', row, w.history);
    assert db'.lastSequence !in w.history.inserted;
    GrownDelivery(w, Move(w, db'));
  }

  lemma {:induction false} InsertStepKeepsInv(setup: Setup, w: World, e: Event, status: Status, now: int, disk: Disk)
    requires Inv(setup, w) && status in {Persisted, PendingUpload}
    ensures Inv(setup, Move(w, Insert(setup.queue, w.db, e, status, now, disk).0))
  {
    var db' := Insert(setup.queue, w.db, e, status, now, disk).0;
    if Refusal(setup.queue, w.db, e, disk).Some? {
      SameRowsAreQuiet(w.db, db');
      QuietMoveKeepsInv(setup, w, db');
    } else {
      var row := NewRow(w.db, e, status, now);
      InsertAppends(setup.queue, w.db, e, status, now, disk);
      InsertKeepsQueue(setup.queue, w.db, e, status, now, disk);
      AppendedKeepsInv(setup, w, db', row);
    }
  }

  lemma AppendedKeepsInv(setup: Setup, w: World, db': EdgeDb, row: Row)
    requires Inv(setup, w) && Appends(w.db, db', row) && QueueKept(setup.queue, db')
    ensures Inv(setup, Move(w, db'))
  {
    AppendKeepsBooks(w.db, db', row, w.history);
    AppendKeepsOrder(w.db, db', row, w.history);
    AppendKeepsLink(w.db, db', row, w.history, w.link, w.topic);
    AppendKeepsBudget(setup.upload, w.db, db', row, w.history);
    AppendKeepsTries(setup.upload, w.db, db', row);
    AppendKeepsDelivery(w, db', row);
  }

  // ---- Crash ----

  lemma ReopenHistory(db: EdgeDb, h: History)
    requires Books(db, h)
    ensures LegalMove(db, Reopen(db))
    ensures Observe(h, db, Reopen(db)).abandoned == h.abandoned
    ensures Observe(h, db, Reopen(db)).acked == h.acked
    ensures Observe(h, db, Reopen(db)).inserted == h.inserted
  {
    ReopenIsLegal(db, h);
    RevivalKeepsHistory(db, Reopen(db), h);
  }

  lemma ReopenIsLegal(db: EdgeDb, h: History)
    requires Books(db, h)
    ensures LegalMove(db, Reopen(db))
    ensures forall s | s in Reopen(db).rows && !Reopen(db).rows[s].status.Active() :: Reopen(db).rows[s].status == db.rows[s].status
  {
    ReopenEvolves(db);
    NothingStranded(db);
    forall s | s in db.rows && db.rows[s].status.Active() ensures db.rows[s].status == Persisted || db.rows[s].status == PendingUpload {
      assert Account(db.rows, h, s);
    }
    RevivalIsLegal(db, Reopen(db));
  }

  lemma RevivalIsLegal(db: EdgeDb, db': EdgeDb)
    requires Evolves(db, db') && db'.rows.Keys == db.rows.Keys
    requires forall s | s in db.rows :: db'.rows[s].status == if db.rows[s].status.Active() then PendingUpload else db.rows[s].status
    requires forall s | s in db.rows && db.rows[s].status.Active() :: db.rows[s].status == Persisted || db.rows[s].status == PendingUpload
    ensures LegalMove(db, db')
  {
  }

  lemma RevivalKeepsHistory(db: EdgeDb, db': EdgeDb, h: History)
    requires Books(db, h) && LegalMove(db, db')
    requires forall s | s in db'.rows && !db'.rows[s].status.Active() :: db'.rows[s].status == db.rows[s].status
    ensures var h' := Observe(h, db, db'); h'.abandoned == h.abandoned && h'.acked == h.acked && h'.inserted == h.inserted
  {
    UnchangedAbandonment(db, db', h);
    NothingAcked(db, db', h);
    NothingInserted(db, db', h);
  }

  lemma ReopenBounds(db: EdgeDb)
    requires WellFormed(db)
    ensures forall s | s in Reopen(db).incidents :: 1 <= s <= db.lastSequence
  {
    var suppressed := SuppressCovered(RecoverInterrupted(db));
    RebuildGrows(suppressed.rows, suppressed.incidents, suppressed.lastSequence);
  }

  lemma ReopenKeepsQueue(cfg: Config, db: EdgeDb, h: History)
    requires QueueKept(cfg, db) && Books(db, h)
    ensures QueueKept(cfg, Reopen(db))
  {
    ReopenHistory(db, h);
    ReopenKeepsProvenance(db);
    ReopenRepresents(db);
    ReopenBounds(db);
    LegalMoveKeepsQueue(cfg, db, Reopen(db));
  }

  lemma {:induction false} CrashStepKeepsInv(setup: Setup, w: World)
    requires Inv(setup, w)
    ensures Inv(setup, Move(w, Reopen(w.db)).(link := Idle))
  {
    var db' := Reopen(w.db);
    ReopenHistory(w.db, w.history);
    ReopenKeepsQueue(setup.queue, w.db, w.history);
    ReopenSteady(w.db);
    LegalMoveKeepsBooks(w.db, db', w.history);
    LegalMoveKeepsOrder(w.db, db', w.history.inserted);
    SteadyKeepsBudget(setup.upload, w.db, db', w.history);
    NothingStranded(w.db);
    SteadyKeepsTries(setup.upload, w.db, db');
    SameDelivery(w, Move(w, db').(link := Idle));
  }

  lemma ReopenSteady(db: EdgeDb)
    ensures Steady(db.rows, Reopen(db).rows)
    ensures Reopen(db).sync.abandonedCount == db.sync.abandonedCount
  {
  }

  // ---- The uploader's steps ----

  lemma BatchIsFresh(db: EdgeDb, now: int, batch: seq<Record>, limit: nat, maxBytes: int)
    requires BatchOf(batch, EligibleUpTo(db.rows, now, db.lastSequence), limit, maxBytes)
    ensures FreshFrom(db.rows, batch, 0)
    ensures forall i | 0 <= i < |batch| :: batch[i].sequence in db.rows && batch[i].row == db.rows[batch[i].sequence]
  {
    forall i | 0 <= i < |batch|
      ensures Fresh(db.rows, batch[i]) && batch[i].row == db.rows[batch[i].sequence]
      ensures forall j | 0 <= j < i :: batch[j].sequence < batch[i].sequence
    {
      EligibleListed(db.rows, now, db.lastSequence, i);
    }
  }

  lemma BatchIsAuthentic(db: EdgeDb, h: History, batch: seq<Record>)
    requires Books(db, h)
    requires forall i | 0 <= i < |batch| :: batch[i].sequence in db.rows && batch[i].row == db.rows[batch[i].sequence]
    ensures forall m | m in Messages(batch) :: m.sequence in h.inserted && Authentic(m.event, m.code, h.inserted[m.sequence])
  {
  }

  lemma SendingKeepsDelivered(w: World, link: Link, messages: set<Message>)
    requires Delivered(w)
    requires forall m | m in messages :: m.sequence in w.history.inserted && Authentic(m.event, m.code, w.history.inserted[m.sequence])
    ensures Delivered(w.(link := link, sent := w.sent + messages))
  {
  }

  lemma PollStepKeepsInv(setup: Setup, w: World, now: int, batch: seq<Record>)
    requires Inv(setup, w)
    requires BatchOf(batch, EligibleUpTo(w.db.rows, now, w.db.lastSequence), setup.upload.batchSize, setup.upload.batchMaxBytes)
    ensures Inv(setup, w.(link := Sent(batch, {}), sent := w.sent + Messages(batch)))
  {
    BatchIsFresh(w.db, now, batch, setup.upload.batchSize, setup.upload.batchMaxBytes);
    BatchIsAuthentic(w.db, w.history, batch);
    SendingKeepsDelivered(w, Sent(batch, {}), Messages(batch));
  }

  lemma PublishKeepsDelivered(w: World, m: Message, link: Link)
    requires Delivered(w) && m.sequence in w.history.inserted && Authentic(m.event, m.code, w.history.inserted[m.sequence])
    ensures Delivered(w.(topic := w.topic + {m}, link := link))
  {
    assert Published(w.topic) <= Published(w.topic + {m});
  }

  lemma PublishKeepsLink(rows: map<nat, Row>, inserted: map<nat, Event>, link: Link, topic: set<Message>, m: Message)
    requires link.Sent? && LinkKept(rows, inserted, link, topic)
    ensures LinkKept(rows, inserted, link.(published := link.published + {m.sequence}), topic + {m})
  {
    PublishedGrows(topic, m);
  }

  lemma PublishStepKeepsInv(setup: Setup, w: World, i: nat)
    requires Inv(setup, w) && w.link.Sent? && i < |w.link.batch|
    ensures var m := AsMessage(w.link.batch[i]);
      Inv(setup, w.(topic := w.topic + {m}, link := w.link.(published := w.link.published + {m.sequence})))
  {
    var m := AsMessage(w.link.batch[i]);
    var link := w.link.(published := w.link.published + {m.sequence});
    PublishKeepsDelivered(w, m, link);
    PublishKeepsLink(w.db.rows, w.history.inserted, w.link, w.topic, m);
  }

  lemma PublishedGrows(topic: set<Message>, m: Message)
    ensures Published(topic + {m}) == Published(topic) + {m.sequence}
  {
    assert m in topic + {m};
  }

  lemma TopicGrowsKeepsLink(rows: map<nat, Row>, inserted: map<nat, Event>, link: Link, topic: set<Message>, m: Message)
    requires LinkKept(rows, inserted, link, topic)
    ensures LinkKept(rows, inserted, link, topic + {m})
  {
    PublishedGrows(topic, m);
  }

  lemma LatePublishStepKeepsInv(setup: Setup, w: World, m: Message)
    requires Inv(setup, w) && m in w.sent
    ensures Inv(setup, w.(topic := w.topic + {m}))
  {
    PublishKeepsDelivered(w, m, w.link);
    TopicGrowsKeepsLink(w.db.rows, w.history.inserted, w.link, w.topic, m);
  }

  lemma AnswerStepKeepsInv(setup: Setup, w: World, reply: Reply)
    requires Inv(setup, w) && w.link.Sent? && HonestReply(w.link, reply)
    ensures Inv(setup, w.(link := Answered(w.link.batch, reply, 0)))
  {
    SameDelivery(w, w.(link := Answered(w.link.batch, reply, 0)));
  }

  // ---- Disposing of one record ----

  /** Only record s may leave the pending state or have a rejection counted. */
  ghost predicate SteadyBut(rows: map<nat, Row>, rows': map<nat, Row>, s: nat) {
    && rows'.Keys == rows.Keys
    && (forall t | t in rows && t != s :: rows'[t].status == rows[t].status && rows'[t].rejections == rows[t].rejections)
  }

  /** What handling one fresh record does to the queue, whichever way it goes. */
  ghost predicate Disposes(db: EdgeDb, db': EdgeDb, s: nat) {
    && s in db.rows && db.rows[s].status == PendingUpload
    && LegalMove(db, db')
    && SteadyBut(db.rows, db'.rows, s)
    && db'.incidents.Keys == db.incidents.Keys
    && db'.sync.abandonedCount == db.sync.abandonedCount + (if db'.rows[s].status == Abandoned then 1 else 0)
  }

  lemma CompletionDisposes(db: EdgeDb, r: Record, at: int)
    requires Fresh(db.rows, r)
    ensures var db' := CompleteUpload(db, r.sequence, at).0;
      && Disposes(db, db', r.sequence)
      && db'.rows[r.sequence].status == Acknowledged
      && db'.rows[r.sequence].rejections == db.rows[r.sequence].rejections
  {
    CompletionEvolves(db, r.sequence, at);
  }

  lemma AbandonmentDisposes(db: EdgeDb, r: Record, cause: string)
    requires Fresh(db.rows, r)
    ensures var db' := Abandon(db, r.sequence, cause).0;
      && Disposes(db, db', r.sequence)
      && db'.rows[r.sequence].status == Abandoned
      && db'.rows[r.sequence].rejections == db.rows[r.sequence].rejections + 1
  {
    AbandonmentEvolves(db, r.sequence, cause);
  }

  lemma FailureDisposes(db: EdgeDb, r: Record, retryAt: int, cause: string, rejected: bool)
    requires Fresh(db.rows, r)
    ensures var db' := MarkFailed(db, r.sequence, retryAt, cause, rejected).0;
      && Disposes(db, db', r.sequence)
      && db'.rows[r.sequence].status == PendingUpload
  {
    FailureEvolves(db, r.sequence, retryAt, cause, rejected);
    FailureIsSteadyBut(db, r.sequence, retryAt, cause, rejected);
  }

  lemma FailureIsSteadyBut(db: EdgeDb, s: nat, retryAt: int, cause: string, rejected: bool)
    requires s in db.rows && db.rows[s].status == PendingUpload
    ensures var db' := MarkFailed(db, s, retryAt, cause, rejected).0;
      && SteadyBut(db.rows, db'.rows, s)
      && db'.rows[s].status == PendingUpload
      && db'.incidents == db.incidents && db'.sync.abandonedCount == db.sync.abandonedCount
  {
  }

  /** The verdict a fresh record ends with, for every reply. */
  ghost predicate Verdict(cfg: UploadConfig, db: EdgeDb, db': EdgeDb, r: Record, reply: Reply) {
    && Disposes(db, db', r.sequence)
    && (db'.rows[r.sequence].status == Acknowledged ==> Accepted(reply, r.sequence))
    && (db'.rows[r.sequence].status == Abandoned <==> Refused(reply, r.sequence) && LastTry(cfg, r))
    && db'.rows[r.sequence].rejections == db.rows[r.sequence].rejections + (if Charges(cfg, r, reply) then 1 else 0)
  }

  lemma DisposeGivesVerdict(cfg: UploadConfig, db: EdgeDb, r: Record, reply: Reply, at: Times)
    requires Fresh(db.rows, r)
    ensures Verdict(cfg, db, Dispose(cfg, db, r, reply, at), r, reply)
  {
    BudgetChargedExactly(cfg, db, r, reply, at);
    var retryAt := RetryTime(cfg, r.row.attempts, at.failed);
    match reply {
      case RequestFailed(cause) => FailureDisposes(db, r, retryAt, Truncate(cause), false);
      case Decoded(accepted, rejected) =>
        if r.sequence in accepted {
          CompletionDisposes(db, r, at.sent);
        } else if LastTry(cfg, r) {
          AbandonmentDisposes(db, r, Cause(rejected, r.sequence));
        } else {
          FailureDisposes(db, r, retryAt, Cause(rejected, r.sequence), true);
        }
    }
  }

  lemma DeliveryKeepsOneUnresolved(db: EdgeDb, s: nat, at: int)
    requires OneUnresolved(db.incidents)
    ensures OneUnresolved(CompleteUpload(db, s, at).0.incidents)
  {
  }

  lemma DisposeKeepsProvenance(cfg: UploadConfig, db: EdgeDb, r: Record, reply: Reply, at: Times)
    requires ReplayProvenance(db) && OneUnresolved(db.incidents)
    ensures ReplayProvenance(Dispose(cfg, db, r, reply, at)) && OneUnresolved(Dispose(cfg, db, r, reply, at).incidents)
  {
    var s, retryAt := r.sequence, RetryTime(cfg, r.row.attempts, at.failed);
    match reply {
      case RequestFailed(cause) => FailureKeepsProvenance(db, s, retryAt, Truncate(cause), false);
      case Decoded(accepted, rejected) =>
        CompletionKeepsProvenance(db, s, at.sent);
        DeliveryKeepsOneUnresolved(db, s, at.sent);
        AbandonmentKeepsProvenance(db, s, Cause(rejected, s));
        FailureKeepsProvenance(db, s, retryAt, Cause(rejected, s), true);
    }
  }

  lemma DisposeKeepsFresh(db: EdgeDb, db': EdgeDb, batch: seq<Record>, next: nat)
    requires next < |batch| && FreshFrom(db.rows, batch, next) && Disposes(db, db', batch[next].sequence)
    ensures FreshFrom(db'.rows, batch, next + 1)
  {
    forall i | next + 1 <= i < |batch| ensures Fresh(db'.rows, batch[i]) {
      assert Fresh(db.rows, batch[i]) && batch[i].sequence != batch[next].sequence;
      StaysFresh(db, db', batch[i]);
    }
  }

  /** What the books say about the rows still in the table. */
  ghost predicate Booked(rows: map<nat, Row>, h: History) {
    forall t | t in rows ::
      && t in h.inserted
      && (rows[t].status == Acknowledged ==> t in h.acked)
      && (rows[t].status == Abandoned ==> t in h.abandoned)
      && (rows[t].status == PendingUpload ==> t !in h.abandoned)
  }

  lemma BooksAreBooked(db: EdgeDb, h: History)
    requires Books(db, h)
    ensures Booked(db.rows, h)
  {
    forall t | t in db.rows ensures Account(db.rows, h, t) {
      assert t in h.inserted;
    }
  }

  lemma SettledSet(rows: map<nat, Row>, known: set<nat>, status: Status, s: nat)
    requires s in rows && forall t | t in rows && t != s && rows[t].status == status :: t in known
    ensures known + (set t | t in rows && rows[t].status == status) == known + (if rows[s].status == status then {s} else {})
  {
  }

  lemma DisposeHistory(db: EdgeDb, db': EdgeDb, h: History, s: nat)
    requires Disposes(db, db', s) && Booked(db.rows, h)
    ensures var h' := Observe(h, db, db');
      && h'.inserted == h.inserted
      && h'.refusals == h.refusals
      && h'.acked == h.acked + (if db'.rows[s].status == Acknowledged then {s} else {})
      && h'.abandoned == h.abandoned + (if db'.rows[s].status == Abandoned then {s} else {})
      && s !in h.abandoned
  {
    SettledSet(db'.rows, h.acked, Acknowledged, s);
    SettledSet(db'.rows, h.abandoned, Abandoned, s);
    SameInserted(db, db', h);
  }

  lemma SameInserted(db: EdgeDb, db': EdgeDb, h: History)
    requires db'.rows.Keys <= h.inserted.Keys
    ensures Observe(h, db, db').inserted == h.inserted
  {
    assert h.inserted.Keys + db'.rows.Keys == h.inserted.Keys;
  }

  lemma DisposeKeepsBooks(db: EdgeDb, db': EdgeDb, h: History, s: nat)
    requires Disposes(db, db', s) && Books(db, h)
    ensures Books(db', Observe(h, db, db'))
  {
    BooksAreBooked(db, h);
    DisposeCountsAbandonment(db, db', h, s);
    LegalMoveKeepsBooks(db, db', h);
  }

  lemma DisposeCountsAbandonment(db: EdgeDb, db': EdgeDb, h: History, s: nat)
    requires Disposes(db, db', s) && Booked(db.rows, h)
    ensures db'.sync.abandonedCount - db.sync.abandonedCount == |Observe(h, db, db').abandoned| - |h.abandoned|
  {
    DisposeHistory(db, db', h, s);
    OneMore(h.abandoned, s, db'.rows[s].status == Abandoned);
  }

  lemma OneMore(known: set<nat>, s: nat, added: bool)
    requires s !in known
    ensures |known + (if added then {s} else {})| == |known| + (if added then 1 else 0)
  {
    assert known + {} == known;
  }

  lemma DisposeKeepsBudget(cfg: UploadConfig, db: EdgeDb, db': EdgeDb, h: History, r: Record, reply: Reply)
    requires Verdict(cfg, db, db', r, reply) && Booked(db.rows, h) && Budget(cfg, db.rows, h)
    requires db.rows[r.sequence].rejections == r.row.rejections
    ensures Budget(cfg, db'.rows, Counted(Observe(h, db, db'), reply, r.sequence))
  {
    DisposeHistory(db, db', h, r.sequence);
    CountingKeepsBudget(cfg, db, db', h, Observe(h, db, db'), r, reply);
  }

  lemma CountingKeepsBudget(cfg: UploadConfig, db: EdgeDb, db': EdgeDb, h: History, seen: History, r: Record, reply: Reply)
    requires Verdict(cfg, db, db', r, reply) && Budget(cfg, db.rows, h) && db.rows[r.sequence].rejections == r.row.rejections
    requires seen.refusals == h.refusals
    requires seen.abandoned == h.abandoned + (if db'.rows[r.sequence].status == Abandoned then {r.sequence} else {})
    ensures Budget(cfg, db'.rows, Counted(seen, reply, r.sequence))
  {
    var h' := Counted(seen, reply, r.sequence);
    forall s | s in db'.rows ensures db'.rows[s].rejections <= Refusals(h', s) {
      assert db.rows[s].rejections <= Refusals(h, s);
    }
    forall s | s in h'.abandoned ensures Refusals(h', s) >= cfg.maxRetries {
      if s in h.abandoned {
        assert Refusals(h, s) >= cfg.maxRetries;
      } else {
        assert db.rows[s].rejections <= Refusals(h, s);
      }
    }
  }

  lemma DisposeKeepsTries(cfg: UploadConfig, db: EdgeDb, db': EdgeDb, r: Record, reply: Reply)
    requires Verdict(cfg, db, db', r, reply) && Tries(cfg, db.rows)
    requires db.rows[r.sequence].rejections == r.row.rejections
    ensures Tries(cfg, db'.rows)
  {
    forall s | s in db'.rows && s != r.sequence ensures db'.rows[s].status == db.rows[s].status && db'.rows[s].rejections == db.rows[s].rejections {
    }
  }

  lemma DisposeKeepsQueue(cfg: Config, db: EdgeDb, db': EdgeDb, s: nat)
    requires Disposes(db, db', s) && QueueKept(cfg, db) && ReplayProvenance(db') && OneUnresolved(db'.incidents)
    ensures QueueKept(cfg, db')
  {
    assert forall i | i in db'.incidents :: i in db.incidents;
    LegalMoveKeepsQueue(cfg, db, db');
  }

  lemma HandledDelivery(w: World, db': EdgeDb, link: Link, h': History, s: nat)
    requires Delivered(w) && h'.inserted == w.history.inserted && h'.acked <= w.history.acked + {s}
    requires s in h'.acked ==> s in w.history.acked || s in Published(w.topic)
    ensures Delivered(w.(db := db', link := link, history := h'))
  {
  }

  lemma BooksIgnoreRefusals(db: EdgeDb, h: History, reply: Reply, s: nat)
    requires Books(db, h)
    ensures Books(db, Counted(h, reply, s))
  {
    forall t | t in h.inserted ensures Account(db.rows, Counted(h, reply, s), t) {
      assert Account(db.rows, h, t);
    }
  }

  lemma CountedKeepsBudget(cfg: UploadConfig, rows: map<nat, Row>, h: History, reply: Reply, s: nat)
    requires Budget(cfg, rows, h)
    ensures Budget(cfg, rows, Counted(h, reply, s))
  {
    var h' := Counted(h, reply, s);
    assert forall t :: Refusals(h, t) <= Refusals(h', t);
  }

  ghost predicate Handling(w: World) {
    w.link.Answered? && w.link.next < |w.link.batch|
  }

  /** A write that the store refused: the record keeps its place, the service's refusal still happened. */
  lemma UnwrittenKeepsInv(setup: Setup, w: World, s: nat)
    requires Inv(setup, w) && Handling(w)
    ensures Inv(setup, w.(link := Handled(w.link), history := Counted(w.history, w.link.reply, s)))
  {
    BooksIgnoreRefusals(w.db, w.history, w.link.reply, s);
    HandledDelivery(w, w.db, Handled(w.link), Counted(w.history, w.link.reply, s), s);
    CountedKeepsBudget(setup.upload, w.db.rows, w.history, w.link.reply, s);
  }

  lemma WrittenKeepsBooks(cfg: UploadConfig, db: EdgeDb, db': EdgeDb, h: History, r: Record, reply: Reply)
    requires Verdict(cfg, db, db', r, reply) && Books(db, h) && InOrder(db.rows, h.inserted)
    ensures Books(db', Counted(Observe(h, db, db'), reply, r.sequence))
    ensures InOrder(db'.rows, Counted(Observe(h, db, db'), reply, r.sequence).inserted)
  {
    DisposeKeepsBooks(db, db', h, r.sequence);
    BooksIgnoreRefusals(db', Observe(h, db, db'), reply, r.sequence);
    LegalMoveKeepsOrder(db, db', h.inserted);
    NothingInserted(db, db', h);
  }

  lemma WrittenKeepsLink(cfg: UploadConfig, db: EdgeDb, db': EdgeDb, h: History, link: Link, topic: set<Message>)
    requires link.Answered? && link.next < |link.batch| && LinkKept(db.rows, h.inserted, link, topic)
    requires Disposes(db, db', link.batch[link.next].sequence)
    ensures LinkKept(db'.rows, h.inserted, Handled(link), topic)
  {
    DisposeKeepsFresh(db, db', link.batch, link.next);
  }

  lemma WrittenKeepsDelivery(cfg: UploadConfig, w: World, db': EdgeDb, r: Record)
    requires w.link.Answered? && LinkKept(w.db.rows, w.history.inserted, w.link, w.topic)
    requires Verdict(cfg, w.db, db', r, w.link.reply) && Booked(w.db.rows, w.history) && Delivered(w)
    ensures var h' := Counted(Observe(w.history, w.db, db'), w.link.reply, r.sequence);
      h'.inserted == w.history.inserted && Delivered(w.(db := db', link := Handled(w.link), history := h'))
  {
    var h' := Counted(Observe(w.history, w.db, db'), w.link.reply, r.sequence);
    DisposeHistory(w.db, db', w.history, r.sequence);
    HandledDelivery(w, db', Handled(w.link), h', r.sequence);
  }

  lemma WrittenKeepsInv(setup: Setup, w: World, db': EdgeDb, r: Record)
    requires Inv(setup, w) && Handling(w) && r == w.link.batch[w.link.next] && Fresh(w.db.rows, r)
    requires Verdict(setup.upload, w.db, db', r, w.link.reply) && QueueKept(setup.queue, db')
    ensures Inv(setup, HandledWorld(w, r, db'))
  {
    BooksAreBooked(w.db, w.history);
    WrittenKeepsBooks(setup.upload, w.db, db', w.history, r, w.link.reply);
    DisposeKeepsBudget(setup.upload, w.db, db', w.history, r, w.link.reply);
    DisposeKeepsTries(setup.upload, w.db, db', r, w.link.reply);
    WrittenKeepsLink(setup.upload, w.db, db', w.history, w.link, w.topic);
    WrittenKeepsDelivery(setup.upload, w, db', r);
  }

  lemma NextIsFresh(w: World)
    requires Handling(w) && LinkKept(w.db.rows, w.history.inserted, w.link, w.topic)
    ensures Fresh(w.db.rows, w.link.batch[w.link.next])
  {
  }

  lemma DisposeKeepsEverything(cfg: UploadConfig, queue: Config, db: EdgeDb, r: Record, reply: Reply, at: Times)
    requires Fresh(db.rows, r) && QueueKept(queue, db)
    ensures Verdict(cfg, db, Dispose(cfg, db, r, reply, at), r, reply)
    ensures QueueKept(queue, Dispose(cfg, db, r, reply, at))
  {
    DisposeGivesVerdict(cfg, db, r, reply, at);
    DisposeKeepsProvenance(cfg, db, r, reply, at);
    DisposeKeepsQueue(queue, db, Dispose(cfg, db, r, reply, at), r.sequence);
  }

  lemma WriteKeepsInv(setup: Setup, w: World, at: Times)
    requires Inv(setup, w) && Handling(w)
    ensures var r := w.link.batch[w.link.next];
      Inv(setup, HandledWorld(w, r, Dispose(setup.upload, w.db, r, w.link.reply, at)))
  {
    var r := w.link.batch[w.link.next];
    NextIsFresh(w);
    DisposeKeepsEverything(setup.upload, setup.queue, w.db, r, w.link.reply, at);
    WrittenKeepsInv(setup, w, Dispose(setup.upload, w.db, r, w.link.reply, at), r);
  }

  lemma {:induction false} HandleStepKeepsInv(setup: Setup, w: World, at: Times, written: bool)
    requires Inv(setup, w) && Handling(w)
    ensures Inv(setup, HandleNext(setup.upload, w, at, written))
  {
    if written {
      WriteKeepsInv(setup, w, at);
    } else {
      UnwrittenKeepsInv(setup, w, w.link.batch[w.link.next].sequence);
    }
  }
}
