/** The whole repertoire of the edge store: every transaction it can commit, as one type. */
module EdgeTransactions {
  import opened Prelude
  import opened EdgeModel

  datatype Transaction =
    | InsertTx(event: Event, status: Status, now: int, disk: Disk)
    | PendingTx(s: nat)
    | CompleteTx(s: nat, at: int)
    | AbandonTx(s: nat, cause: string)
    | FailTx(s: nat, retryAt: int, cause: string, rejected: bool)
    | PurgeTx(cutoff: int)
    | ContactTx(at: int)
    | LostContactTx(cause: string)
    | OpenTx(s: nat, assetId: string, code: Code, temperature: Option<real>, eventAt: int, openedAt: int)
    | ResolveTx(assetId: string, code: Code, at: int)
    | UploadFailureTx(s: nat)
    | ReserveTx(s: nat, at: int, retryAfter: int)
    | RecordTx(s: nat, at: int, succeeded: bool, next: Option<int>)
    | SaveTx(condition: ConditionKey, since: int)
    | ForgetTx(condition: ConditionKey)
    | BeatTx(at: int)
    | BeatDoneTx(sequence: nat, succeeded: bool)
    | ReopenTx

  function Commit(cfg: Config, db: EdgeDb, tx: Transaction): EdgeDb {
    match tx
    case InsertTx(event, status, now, disk) => Insert(cfg, db, event, status, now, disk).0
    case PendingTx(s) => MarkPendingUpload(db, s).0
    case CompleteTx(s, at) => CompleteUpload(db, s, at).0
    case AbandonTx(s, cause) => Abandon(db, s, cause).0
    case FailTx(s, retryAt, cause, rejected) => MarkFailed(db, s, retryAt, cause, rejected).0
    case PurgeTx(cutoff) => Purge(db, cutoff)
    case ContactTx(at) => ContactSuccess(db, at)
    case LostContactTx(cause) => ContactFailure(db, cause)
    case OpenTx(s, assetId, code, temperature, eventAt, openedAt) =>
      db.(incidents := InsertIncident(db.incidents, s, NewIncident(assetId, code, temperature, eventAt, openedAt)))
    case ResolveTx(assetId, code, at) => ResolveIncident(db, assetId, code, at)
    case UploadFailureTx(s) => RecordUploadFailure(db, s)
    case ReserveTx(s, at, retryAfter) => ReserveAttempt(db, s, at, retryAfter).0
    case RecordTx(s, at, succeeded, next) => RecordAttempt(db, s, at, succeeded, next).0
    case SaveTx(condition, since) =>
      if condition in db.debounce then db else db.(debounce := db.debounce[condition := since])
    case ForgetTx(condition) => db.(debounce := db.debounce - {condition})
    case BeatTx(at) => ReserveHeartbeat(db, at)
    case BeatDoneTx(sequence, succeeded) => RecordHeartbeat(db, sequence, succeeded)
    case ReopenTx => Reopen(db)
  }

  /** The database after a history of transactions. */
  function Committed(cfg: Config, txs: seq<Transaction>): EdgeDb {
    if txs == [] then EMPTY_DB else Commit(cfg, Committed(cfg, txs[..|txs| - 1]), txs[|txs| - 1])
  }
}
