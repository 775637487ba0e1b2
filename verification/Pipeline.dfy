/**
 The whole path of a reading, as a machine of atomic steps: queue transactions on
 the edge, an upload that may be lost or half published, crashes anywhere, and the
 topic it ends on.
 */
module Pipeline {
  import opened Prelude
  import opened EdgeModel
  import opened QueueLaws
  import opened EdgeStore
  import opened Uploader

  // ---- States ----

  /** One published record, as the ingestion service puts it on the topic. */
  datatype Message = Message(sequence: nat, event: Event, code: Option<Code>, replay: bool)

  /** The uploader's volatile state: a crash forgets it. */
  datatype Link =
    | Idle
    | Sent(batch: seq<Record>, published: set<nat>)
    | Answered(batch: seq<Record>, reply: Reply, next: nat)

  /** What has ever happened to records, as an outside observer notes it down. */
  datatype History = History(
    inserted: map<nat, Event>,
    acked: set<nat>,
    abandoned: set<nat>,
    purged: set<nat>,
    refusals: map<nat, nat>)

  /**
   sent holds every record ever put into a request: the service may still publish it after the edge has given up on
   the reply.
   */
  datatype World = World(
    db: EdgeDb,
    link: Link,
    history: History,
    topic: set<Message>,
    sent: set<Message>)

  const INITIAL := World(EMPTY_DB, Idle, History(map[], {}, {}, {}, map[]), {}, {})

  datatype Setup = Setup(queue: Config, upload: UploadConfig)
  {
    predicate Valid() {
      queue.Valid() && upload.Valid()
    }
  }

  datatype Step =
    | InsertStep(event: Event, pending: bool, now: int, disk: Disk)
    | PendingStep(s: nat)
    | PurgeStep(cutoff: int)
    | CrashStep
    | PollStep(now: int, batch: seq<Record>)
    | PublishStep(i: nat)
    | LatePublishStep(message: Message)
    | AnswerStep(reply: Reply)
    | HandleStep(at: Times, written: bool)
    | ContactStep(contactAt: int, cause: Option<string>)
    | FallbackStep(to: EdgeDb)

  // ---- Steps ----

  /** The history after the database moved from db to db', whatever moved it. */
  function Observe(h: History, db: EdgeDb, db': EdgeDb): History {
    h.(inserted := map s | s in h.inserted.Keys + db'.rows.Keys ::
                     if s in h.inserted then h.inserted[s] else db'.rows[s].event,
       acked := h.acked + (set s | s in db'.rows && db'.rows[s].status == Acknowledged),
       abandoned := h.abandoned + (set s | s in db'.rows && db'.rows[s].status == Abandoned),
       purged := h.purged + (db.rows.Keys - db'.rows.Keys))
  }

  function Move(w: World, db': EdgeDb): World {
    w.(db := db', history := Observe(w.history, w.db, db'))
  }

  function Published(topic: set<Message>): set<nat> {
    set m | m in topic :: m.sequence
  }

  function AsMessage(r: Record): Message {
    Message(r.sequence, r.row.event, r.row.code, r.row.replay)
  }

  function Messages(batch: seq<Record>): set<Message> {
    set r | r in batch :: AsMessage(r)
  }

  function Refusals(h: History, s: nat): nat {
    if s in h.refusals then h.refusals[s] else 0
  }

  /** The service accepts only what it has published during this request. */
  predicate HonestReply(link: Link, reply: Reply)
    requires link.Sent?
  {
    reply.Decoded? ==> forall s | s in reply.accepted :: s in link.published
  }

  /** Transactions on incidents, attempts, debounce and heartbeats: they leave the queue itself alone. */
  ghost predicate OffQueue(db: EdgeDb, db': EdgeDb) {
    && db'.rows == db.rows && db'.lastSequence == db.lastSequence && db'.sync == db.sync
    && db.incidents.Keys <= db'.incidents.Keys
    && (forall s | s in db'.incidents :: 1 <= s <= db.lastSequence)
    && (OneUnresolved(db.incidents) ==> OneUnresolved(db'.incidents))
  }

  function Contacted(db: EdgeDb, at: int, cause: Option<string>): EdgeDb {
    if cause.Some? then ContactFailure(db, cause.value) else ContactSuccess(db, at)
  }

  ghost function Apply(setup: Setup, w: World, step: Step): World {
    match step
    case InsertStep(event, pending, now, disk) =>
      Move(w, Insert(setup.queue, w.db, event, if pending then PendingUpload else Persisted, now, disk).0)
    case PendingStep(s) => Move(w, MarkPendingUpload(w.db, s).0)
    case PurgeStep(cutoff) => Move(w, Purge(w.db, cutoff))
    case CrashStep => Move(w, Reopen(w.db)).(link := Idle)
    case PollStep(now, batch) =>
      if w.link.Idle? && BatchOf(batch, EligibleUpTo(w.db.rows, now, w.db.lastSequence), setup.upload.batchSize, setup.upload.batchMaxBytes)
      then w.(link := Sent(batch, {}), sent := w.sent + Messages(batch)) else w
    case PublishStep(i) =>
      if w.link.Sent? && i < |w.link.batch| then
        w.(topic := w.topic + {AsMessage(w.link.batch[i])},
           link := w.link.(published := w.link.published + {w.link.batch[i].sequence}))
      else w
    case LatePublishStep(m) => if m in w.sent then w.(topic := w.topic + {m}) else w
    case AnswerStep(reply) =>
      if w.link.Sent? && HonestReply(w.link, reply) then w.(link := Answered(w.link.batch, reply, 0)) else w
    case HandleStep(at, written) =>
      if w.link.Answered? && w.link.next < |w.link.batch| then HandleNext(setup.upload, w, at, written)
      else if w.link.Answered? then w.(link := Idle) else w
    case ContactStep(at, cause) =>
      Move(w, Contacted(w.db, at, cause))
    case FallbackStep(to) => if OffQueue(w.db, to) then Move(w, to) else w
  }

  function Counted(h: History, reply: Reply, s: nat): History {
    if Refused(reply, s) then h.(refusals := h.refusals[s := Refusals(h, s) + 1]) else h
  }

  function Handled(link: Link): Link
    requires link.Answered?
  {
    link.(next := link.next + 1)
  }

  /** The world after handling record r, whatever database the write left behind. */
  function HandledWorld(w: World, r: Record, db': EdgeDb): World
    requires w.link.Answered?
  {
    w.(db := db', link := Handled(w.link), history := Counted(Observe(w.history, w.db, db'), w.link.reply, r.sequence))
  }

  /** The uploader disposes of the next record of the batch; the store may refuse the write. */
  function HandleNext(cfg: UploadConfig, w: World, at: Times, written: bool): World
    requires w.link.Answered? && w.link.next < |w.link.batch|
  {
    var r := w.link.batch[w.link.next];
    if written then HandledWorld(w, r, Dispose(cfg, w.db, r, w.link.reply, at))
    else w.(link := Handled(w.link), history := Counted(w.history, w.link.reply, r.sequence))
  }

  ghost function Run(setup: Setup, steps: seq<Step>): World {
    if steps == [] then INITIAL
    else Apply(setup, Run(setup, steps[..|steps| - 1]), steps[|steps| - 1])
  }

  // ---- The invariant ----

  /** A stored row is the record that was inserted; only its alarm code may have been cleared. */
  predicate Authentic(event: Event, code: Option<Code>, original: Event) {
    event == original && (code == original.code || code.None?)
  }

  /** Where record s stands: in exactly one of four places. */
  ghost predicate Account(rows: map<nat, Row>, h: History, s: nat) {
    if s in rows then
      && s !in h.purged
      && match rows[s].status
         case Persisted => s !in h.acked && s !in h.abandoned
         case PendingUpload => s !in h.acked && s !in h.abandoned
         case Acknowledged => s in h.acked && s !in h.abandoned
         case Abandoned => s in h.abandoned && s !in h.acked
         case _ => false
    else
      s in h.purged && (s in h.acked <==> s !in h.abandoned)
  }

  ghost predicate Books(db: EdgeDb, h: History) {
    && (forall s :: s in h.inserted <==> 1 <= s <= db.lastSequence)
    && (forall s | s in db.rows :: s in h.inserted && Authentic(db.rows[s].event, db.rows[s].code, h.inserted[s]))
    && (forall s | s in h.inserted :: Account(db.rows, h, s))
    && (forall s | s in h.acked || s in h.abandoned || s in h.purged :: s in h.inserted)
    && db.sync.abandonedCount == |h.abandoned|
  }

  predicate Owed(rows: map<nat, Row>, s: nat) {
    s in rows && rows[s].status.Active()
  }

  /** Within a device, nothing is settled while something older is still owed. */
  ghost predicate InOrder(rows: map<nat, Row>, inserted: map<nat, Event>) {
    forall i, j | i in inserted && j in inserted && i < j && inserted[i].deviceId == inserted[j].deviceId ::
      Owed(rows, i) ==> Owed(rows, j)
  }

  ghost predicate Budget(cfg: UploadConfig, rows: map<nat, Row>, h: History) {
    && (forall s | s in rows :: rows[s].rejections <= Refusals(h, s))
    && (forall s | s in h.abandoned :: Refusals(h, s) >= cfg.maxRetries)
  }

  /** A record still owed, or accepted, has tries left; an abandoned one has used exactly its last. */
  ghost predicate Tries(cfg: UploadConfig, rows: map<nat, Row>) {
    && cfg.maxRetries > 0
    && (forall s | s in rows :: if rows[s].status == Abandoned then rows[s].rejections == cfg.maxRetries else rows[s].rejections < cfg.maxRetries)
  }

  /** A batch record not handled yet is still the pending head of its device, with the counters it was read with. */
  ghost predicate Fresh(rows: map<nat, Row>, r: Record) {
    && r.sequence in rows
    && rows[r.sequence].status == PendingUpload
    && rows[r.sequence].event == r.row.event
    && rows[r.sequence].rejections == r.row.rejections
    && HeadOfLine(rows, r.sequence, r.row.event.deviceId)
  }

  ghost predicate FreshFrom(rows: map<nat, Row>, batch: seq<Record>, next: nat) {
    DistinctRecords(batch) && forall i | next <= i < |batch| :: Fresh(rows, batch[i])
  }

  ghost predicate LinkKept(rows: map<nat, Row>, inserted: map<nat, Event>, link: Link, topic: set<Message>) {
    match link
    case Idle => true
    case Sent(batch, published) =>
      && FreshFrom(rows, batch, 0)
      && (forall i | 0 <= i < |batch| :: batch[i].sequence in inserted && Authentic(batch[i].row.event, batch[i].row.code, inserted[batch[i].sequence]))
      && published <= Published(topic)
    case Answered(batch, reply, next) =>
      && FreshFrom(rows, batch, next)
      && (reply.Decoded? ==> forall s | s in reply.accepted :: s in Published(topic))
  }

  ghost predicate Delivered(w: World) {
    && w.history.acked <= Published(w.topic)
    && (forall m | m in w.topic || m in w.sent ::
          m.sequence in w.history.inserted && Authentic(m.event, m.code, w.history.inserted[m.sequence]))
  }

  ghost predicate QueueKept(cfg: Config, db: EdgeDb) {
    WellFormed(db) && WithinCapacity(cfg, db) && ReplayProvenance(db) && OneUnresolved(db.incidents)
  }

  ghost predicate Inv(setup: Setup, w: World) {
    && QueueKept(setup.queue, w.db)
    && Books(w.db, w.history)
    && InOrder(w.db.rows, w.history.inserted)
    && Budget(setup.upload, w.db.rows, w.history)
    && Tries(setup.upload, w.db.rows)
    && LinkKept(w.db.rows, w.history.inserted, w.link, w.topic)
    && Delivered(w)
  }
}
