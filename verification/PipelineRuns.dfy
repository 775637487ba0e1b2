/** What holds in every run of the pipeline, however its steps are interleaved, and why the uploader's rounds are such runs. */
module PipelineRuns {
  import opened Prelude
  import opened EdgeModel
  import opened EdgeTransactions
  import opened QueueLaws
  import opened EdgeStore
  import opened Uploader
  import opened Pipeline
  import opened PipelineSteps

  // ---- Every run ----

  lemma StepKeepsInv(setup: Setup, w: World, step: Step)
    requires Inv(setup, w)
    ensures Inv(setup, Apply(setup, w, step))
  {
    match step {
      case InsertStep(event, pending, now, disk) =>
        InsertStepKeepsInv(setup, w, event, if pending then PendingUpload else Persisted, now, disk);
      case ContactStep(at, cause) => ContactStepKeepsInv(setup, w, at, cause);
      case FallbackStep(to) => FallbackKeepsInv(setup, w, to);
      case PendingStep(_) => QueueStepKeepsInv(setup, w, step);
      case PurgeStep(_) => QueueStepKeepsInv(setup, w, step);
      case CrashStep => QueueStepKeepsInv(setup, w, step);
      case _ => LinkStepKeepsInv(setup, w, step);
    }
  }

  lemma FallbackApplies(setup: Setup, w: World, to: EdgeDb)
    ensures Apply(setup, w, FallbackStep(to)) == if OffQueue(w.db, to) then Move(w, to) else w
  {
  }

  lemma FallbackKeepsInv(setup: Setup, w: World, to: EdgeDb)
    requires Inv(setup, w)
    ensures Inv(setup, Apply(setup, w, FallbackStep(to)))
  {
    FallbackApplies(setup, w, to);
    if OffQueue(w.db, to) {
      FallbackStepKeepsInv(setup, w, to);
    }
  }

  lemma QueueStepKeepsInv(setup: Setup, w: World, step: Step)
    requires Inv(setup, w) && (step.PendingStep? || step.PurgeStep? || step.CrashStep?)
    ensures Inv(setup, Apply(setup, w, step))
  {
    match step {
      case PendingStep(s) => PendingStepKeepsInv(setup, w, s);
      case PurgeStep(cutoff) => PurgeStepKeepsInv(setup, w, cutoff);
      case CrashStep => CrashStepKeepsInv(setup, w);
    }
  }

  lemma LinkStepKeepsInv(setup: Setup, w: World, step: Step)
    requires Inv(setup, w)
    requires step.PollStep? || step.PublishStep? || step.LatePublishStep? || step.AnswerStep? || step.HandleStep?
    ensures Inv(setup, Apply(setup, w, step))
  {
    if Apply(setup, w, step) != w {
      match step {
        case PollStep(now, batch) => PollStepKeepsInv(setup, w, now, batch);
        case PublishStep(i) => PublishStepKeepsInv(setup, w, i);
        case LatePublishStep(m) => LatePublishStepKeepsInv(setup, w, m);
        case AnswerStep(reply) => AnswerStepKeepsInv(setup, w, reply);
        case HandleStep(at, written) =>
          if w.link.next < |w.link.batch| {
            HandleStepKeepsInv(setup, w, at, written);
          } else {
            SameDelivery(w, w.(link := Idle));
          }
      }
    }
  }

  lemma EmptyQueueKept(cfg: Config)
    requires cfg.Valid()
    ensures QueueKept(cfg, EMPTY_DB)
  {
    assert ActiveBytes(EMPTY_DB) == 0 && PriorityBytes(EMPTY_DB, PRIORITY_NORMAL) == 0;
    CapacityPositive(cfg);
  }

  lemma CapacityPositive(cfg: Config)
    requires cfg.Valid()
    ensures cfg.PayloadCapacity() >= 0 && cfg.NormalAdmissionLimit() >= 0
  {
    NonNegativeShare(cfg.maxStorageBytes, 65);
    NonNegativeShare(cfg.PayloadCapacity(), 100 - cfg.criticalReservePercent);
  }

  lemma NonNegativeShare(bytes: int, percent: int)
    requires bytes >= 0 && percent >= 0
    ensures bytes * percent / 100 >= 0
  {
    assert bytes * percent >= 0;
  }

  lemma EmptyBooks()
    ensures Books(EMPTY_DB, INITIAL.history)
  {
  }

  lemma InitialInv(setup: Setup)
    requires setup.Valid()
    ensures Inv(setup, INITIAL)
  {
    EmptyQueueKept(setup.queue);
    EmptyBooks();
  }

  lemma {:induction false} RunKeepsInv(setup: Setup, steps: seq<Step>)
    requires setup.Valid()
    ensures Inv(setup, Run(setup, steps))
  {
    if steps == [] {
      InitialInv(setup);
    } else {
      RunKeepsInv(setup, steps[..|steps| - 1]);
      StepKeepsInv(setup, Run(setup, steps[..|steps| - 1]), steps[|steps| - 1]);
    }
  }

  /** Across crashes and lost replies: acknowledged means published, and nothing is altered on the way. */
  lemma {:induction false} AcknowledgedMeansPublished(setup: Setup, steps: seq<Step>)
    requires setup.Valid()
    ensures var w := Run(setup, steps);
      && (forall s | s in w.history.acked :: exists m | m in w.topic :: m.sequence == s)
      && (forall m | m in w.topic :: m.sequence in w.history.inserted
            && m.event == w.history.inserted[m.sequence] && (m.code == m.event.code || m.code.None?))
  {
    RunKeepsInv(setup, steps);
    var w := Run(setup, steps);
    forall s | s in w.history.acked ensures exists m | m in w.topic :: m.sequence == s {
      assert s in Published(w.topic);
    }
  }

  /** Settled: acknowledged or abandoned, whether or not the row has been purged since. */
  predicate Settled(h: History, s: nat) {
    s in h.acked || s in h.abandoned
  }

  /** Within one device records are settled in the order they were inserted. */
  lemma {:induction false} SettledInOrder(setup: Setup, steps: seq<Step>, i: nat, j: nat)
    requires setup.Valid() && i < j
    requires var h := Run(setup, steps).history;
      i in h.inserted && j in h.inserted && h.inserted[i].deviceId == h.inserted[j].deviceId && Settled(h, j)
    ensures Settled(Run(setup, steps).history, i)
  {
    RunKeepsInv(setup, steps);
    var w := Run(setup, steps);
    assert Account(w.db.rows, w.history, i) && Account(w.db.rows, w.history, j);
    assert Owed(w.db.rows, i) ==> Owed(w.db.rows, j);
  }

  /** Every record ever inserted is owed, acknowledged or abandoned, and never two of these; only settled records are purged. */
  lemma {:induction false} NothingLost(setup: Setup, steps: seq<Step>, s: nat)
    requires setup.Valid()
    ensures var w := Run(setup, steps);
      s in w.history.inserted ==>
        && (Owed(w.db.rows, s) <==> !Settled(w.history, s))
        && !(s in w.history.acked && s in w.history.abandoned)
        && (s in w.history.purged <==> s !in w.db.rows)
        && (s in w.history.purged ==> Settled(w.history, s))
  {
    RunKeepsInv(setup, steps);
    var w := Run(setup, steps);
    if s in w.history.inserted {
      assert Account(w.db.rows, w.history, s);
    }
  }

  /**
   Giving up takes MaxRetries decoded responses that failed to accept the record, and is
   always counted; exactly MaxRetries of them were written, and every other record has
   fewer.
   */
  lemma {:induction false} AbandonedOnlyAfterRefusals(setup: Setup, steps: seq<Step>)
    requires setup.Valid()
    ensures var w := Run(setup, steps);
      && (forall s | s in w.history.abandoned :: Refusals(w.history, s) >= setup.upload.maxRetries)
      && w.db.sync.abandonedCount == |w.history.abandoned|
      && (forall s | s in w.db.rows :: w.db.rows[s].rejections <= setup.upload.maxRetries
            && (w.db.rows[s].rejections == setup.upload.maxRetries <==> w.db.rows[s].status == Abandoned))
  {
    RunKeepsInv(setup, steps);
  }

  /** Byte limits, replay provenance and one unresolved incident per asset and code, in every reachable state. */
  lemma {:induction false} QueueKeptInEveryRun(setup: Setup, steps: seq<Step>)
    requires setup.Valid()
    ensures var db := Run(setup, steps).db;
      && ActiveBytes(db) <= setup.queue.PayloadCapacity()
      && PriorityBytes(db, PRIORITY_NORMAL) <= setup.queue.NormalAdmissionLimit()
      && ReplayProvenance(db)
      && OneUnresolved(db.incidents)
  {
    RunKeepsInv(setup, steps);
  }

  /** The observer's books are only ever added to. */
  lemma HistoryGrows(setup: Setup, w: World, step: Step)
    ensures var h, h' := w.history, Apply(setup, w, step).history;
      && h.acked <= h'.acked && h.abandoned <= h'.abandoned && h.purged <= h'.purged
      && h.inserted.Keys <= h'.inserted.Keys && (forall s | s in h.inserted :: h'.inserted[s] == h.inserted[s])
      && (forall s :: Refusals(h, s) <= Refusals(h', s))
      && w.topic <= Apply(setup, w, step).topic
  {
  }

  lemma {:induction false} RunExtends(setup: Setup, steps: seq<Step>, step: Step)
    ensures Run(setup, steps + [step]) == Apply(setup, Run(setup, steps), step)
  {
    assert (steps + [step])[..|steps|] == steps;
  }

  /** Acknowledged, abandoned and purged are for ever, and what was inserted stays what it was, however a run goes on. */
  lemma {:induction false} SettledForever(setup: Setup, steps: seq<Step>, more: seq<Step>)
    ensures var h, h' := Run(setup, steps).history, Run(setup, steps + more).history;
      && h.acked <= h'.acked && h.abandoned <= h'.abandoned && h.purged <= h'.purged
      && h.inserted.Keys <= h'.inserted.Keys && (forall s | s in h.inserted :: h'.inserted[s] == h.inserted[s])
      && Run(setup, steps).topic <= Run(setup, steps + more).topic
  {
    if more == [] {
      assert steps + more == steps;
    } else {
      var rest, last := more[..|more| - 1], more[|more| - 1];
      SettledForever(setup, steps, rest);
      assert steps + more == steps + rest + [last];
      RunExtends(setup, steps + rest, last);
      HistoryGrows(setup, Run(setup, steps + rest), last);
    }
  }

  /** After a crash at any point of any run, every record that is not settled is waiting for upload and marked as a replay. */
  lemma {:induction false} RestartStrandsNothing(setup: Setup, steps: seq<Step>, s: nat)
    requires setup.Valid()
    ensures var w := Run(setup, steps + [CrashStep]);
      s in w.history.inserted && !Settled(w.history, s) ==>
        s in w.db.rows && w.db.rows[s].status == PendingUpload && w.db.rows[s].replay
  {
    CrashReopens(setup, steps);
    NothingLost(setup, steps + [CrashStep], s);
    if Owed(Run(setup, steps + [CrashStep]).db.rows, s) {
      ReopenedIsWaiting(Run(setup, steps).db, s);
    }
  }

  lemma {:induction false} CrashReopens(setup: Setup, steps: seq<Step>)
    ensures Run(setup, steps + [CrashStep]).db == Reopen(Run(setup, steps).db)
  {
    RunExtends(setup, steps, CrashStep);
  }

  lemma ReopenedIsWaiting(db: EdgeDb, s: nat)
    requires Owed(Reopen(db).rows, s)
    ensures Reopen(db).rows[s].status == PendingUpload && Reopen(db).rows[s].replay
  {
    NothingStranded(db);
    RestartMarksEverything(db);
  }

  // ---- The uploader's rounds are runs ----

  lemma UploadFailureIsOffQueue(db: EdgeDb, s: nat)
    requires WellFormed(db)
    ensures OffQueue(db, RecordUploadFailure(db, s))
  {
  }

  lemma ResolvingIsOffQueue(db: EdgeDb, assetId: string, code: Code, at: int)
    requires WellFormed(db)
    ensures OffQueue(db, ResolveIncident(db, assetId, code, at))
  {
  }

  lemma OpeningIsOffQueue(db: EdgeDb, s: nat, incident: Incident)
    requires WellFormed(db) && 1 <= s <= db.lastSequence
    ensures OffQueue(db, db.(incidents := InsertIncident(db.incidents, s, incident)))
  {
    if OneUnresolved(db.incidents) {
      InsertKeepsOneUnresolved(db.incidents, s, incident);
    }
  }

  lemma ReservationIsOffQueue(db: EdgeDb, key: nat, at: int, retryAfter: int)
    requires WellFormed(db)
    ensures OffQueue(db, ReserveAttempt(db, key, at, retryAfter).0)
  {
  }

  lemma RecordingIsOffQueue(db: EdgeDb, key: nat, at: int, succeeded: bool, next: Option<int>)
    requires WellFormed(db)
    ensures OffQueue(db, RecordAttempt(db, key, at, succeeded, next).0)
  {
  }

  lemma SmallTransactionsAreOffQueue(cfg: Config, db: EdgeDb, tx: Transaction)
    requires WellFormed(db) && (tx.SaveTx? || tx.ForgetTx? || tx.BeatTx? || tx.BeatDoneTx?)
    ensures OffQueue(db, Commit(cfg, db, tx))
  {
  }

  /** Whatever the store commits beside queue rows and contact state is a FallbackStep of the machine. */
  lemma OtherTransactionsAreOffQueue(cfg: Config, db: EdgeDb, tx: Transaction)
    requires WellFormed(db)
    requires tx.OpenTx? || tx.ResolveTx? || tx.UploadFailureTx? || tx.ReserveTx? || tx.RecordTx?
          || tx.SaveTx? || tx.ForgetTx? || tx.BeatTx? || tx.BeatDoneTx?
    requires tx.OpenTx? ==> 1 <= tx.s <= db.lastSequence
    ensures OffQueue(db, Commit(cfg, db, tx))
  {
    if tx.OpenTx? || tx.ResolveTx? || tx.UploadFailureTx? {
      IncidentTransactionIsOffQueue(cfg, db, tx);
    } else if tx.ReserveTx? || tx.RecordTx? {
      AttemptTransactionIsOffQueue(cfg, db, tx);
    } else {
      SmallTransactionsAreOffQueue(cfg, db, tx);
    }
  }

  lemma IncidentTransactionIsOffQueue(cfg: Config, db: EdgeDb, tx: Transaction)
    requires WellFormed(db) && (tx.OpenTx? || tx.ResolveTx? || tx.UploadFailureTx?)
    requires tx.OpenTx? ==> 1 <= tx.s <= db.lastSequence
    ensures OffQueue(db, Commit(cfg, db, tx))
  {
    match tx {
      case OpenTx(s, assetId, code, temperature, eventAt, openedAt) =>
        OpeningIsOffQueue(db, s, NewIncident(assetId, code, temperature, eventAt, openedAt));
      case ResolveTx(assetId, code, at) => ResolvingIsOffQueue(db, assetId, code, at);
      case UploadFailureTx(s) => UploadFailureIsOffQueue(db, s);
    }
  }

  lemma AttemptTransactionIsOffQueue(cfg: Config, db: EdgeDb, tx: Transaction)
    requires WellFormed(db) && (tx.ReserveTx? || tx.RecordTx?)
    ensures OffQueue(db, Commit(cfg, db, tx))
  {
    match tx {
      case ReserveTx(s, at, retryAfter) => ReservationIsOffQueue(db, s, at, retryAfter);
      case RecordTx(s, at, succeeded, next) => RecordingIsOffQueue(db, s, at, succeeded, next);
    }
  }

  lemma HandleApplies(setup: Setup, w: World, at: Times)
    requires Handling(w)
    ensures var r := w.link.batch[w.link.next];
      Apply(setup, w, HandleStep(at, true)) == HandledWorld(w, r, Dispose(setup.upload, w.db, r, w.link.reply, at))
  {
  }

  lemma DisposalIsRun(setup: Setup, steps: seq<Step>, at: Times)
    requires Handling(Run(setup, steps))
    ensures var w, w' := Run(setup, steps), Run(setup, steps + [HandleStep(at, true)]);
      && w'.db == Dispose(setup.upload, w.db, w.link.batch[w.link.next], w.link.reply, at)
      && w'.link == Handled(w.link)
  {
    RunExtends(setup, steps, HandleStep(at, true));
    HandleApplies(setup, Run(setup, steps), at);
  }

  lemma FallbackIsRun(setup: Setup, steps: seq<Step>, to: EdgeDb)
    requires OffQueue(Run(setup, steps).db, to)
    ensures Run(setup, steps + [FallbackStep(to)]).db == to
    ensures Run(setup, steps + [FallbackStep(to)]).link == Run(setup, steps).link
  {
    RunExtends(setup, steps, FallbackStep(to));
  }

  lemma ReachableIsWellFormed(setup: Setup, steps: seq<Step>)
    requires setup.Valid()
    ensures WellFormed(Run(setup, steps).db)
  {
    RunKeepsInv(setup, steps);
  }

  /** What the uploader's loop writes for one record, it writes in machine steps. */
  lemma {:induction false} HandlingIsRun(setup: Setup, steps: seq<Step>, at: Times) returns (longer: seq<Step>)
    requires setup.Valid() && Handling(Run(setup, steps))
    ensures var w, w' := Run(setup, steps), Run(setup, longer);
      && w'.db == HandleRecord(setup.upload, w.db, w.link.batch[w.link.next], w.link.reply, at)
      && w'.link == Handled(w.link)
  {
    var link := Run(setup, steps).link;
    var s := link.batch[link.next].sequence;
    longer := steps + [HandleStep(at, true)];
    DisposalIsRun(setup, steps, at);
    if !Accepted(link.reply, s) {
      ReachableIsWellFormed(setup, longer);
      var disposed := Run(setup, longer).db;
      UploadFailureIsOffQueue(disposed, s);
      FallbackIsRun(setup, longer, RecordUploadFailure(disposed, s));
      longer := longer + [FallbackStep(RecordUploadFailure(disposed, s))];
    }
  }

  lemma {:induction false} BatchIsRun(setup: Setup, steps: seq<Step>, at: Times, k: nat) returns (longer: seq<Step>)
    requires setup.Valid()
    requires var link := Run(setup, steps).link; link.Answered? && link.next == 0 && k <= |link.batch|
    ensures var w, w' := Run(setup, steps), Run(setup, longer);
      && w'.db == HandleBatch(setup.upload, w.db, w.link.batch[..k], w.link.reply, at)
      && w'.link == w.link.(next := k)
  {
    if k == 0 {
      longer := steps;
    } else {
      var batch := Run(setup, steps).link.batch;
      var before := BatchIsRun(setup, steps, at, k - 1);
      assert batch[..k][..k - 1] == batch[..k - 1];
      longer := HandlingIsRun(setup, before, at);
    }
  }

  lemma ContactIsRun(setup: Setup, steps: seq<Step>, at: int, cause: Option<string>)
    ensures var w, w' := Run(setup, steps), Run(setup, steps + [ContactStep(at, cause)]);
      w'.db == Contacted(w.db, at, cause) && w'.link == w.link
  {
    RunExtends(setup, steps, ContactStep(at, cause));
  }

  /** A whole round of the client, from an answered request on, is a run: every law above applies to it. */
  lemma {:induction false} RoundIsRun(setup: Setup, steps: seq<Step>, at: Times) returns (longer: seq<Step>)
    requires setup.Valid()
    requires var link := Run(setup, steps).link; link.Answered? && link.next == 0
    ensures var w := Run(setup, steps);
      Run(setup, longer).db == Round(setup.upload, w.db, w.link.batch, w.link.reply, at)
  {
    var link := Run(setup, steps).link;
    var n := |link.batch|;
    assert link.batch[..n] == link.batch;
    match link.reply {
      case RequestFailed(cause) =>
        var contact := ContactStep(at.failed, Some(Truncate(cause)));
        ContactIsRun(setup, steps, at.failed, Some(Truncate(cause)));
        longer := BatchIsRun(setup, steps + [contact], at, n);
      case Decoded(_, _) =>
        var handled := BatchIsRun(setup, steps, at, n);
        ContactIsRun(setup, handled, at.sent, None);
        longer := handled + [ContactStep(at.sent, None)];
    }
  }
}
