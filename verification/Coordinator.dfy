/** The coordinator's poll over the store, and why each poll is a run of the rate-limiting machine. */
module Coordinator {
  import opened Prelude
  import opened Text
  import opened EdgeModel
  import opened EdgeStore
  import opened SmsLimits
  import Heartbeats
  import SmsMessages

  // ---- One candidate, then all of them ----

  /** Reserve, send and record for the first candidate left; ok is the modem's answer if it is asked. */
  function Turn(cfg: SmsConfig, siteId: string, p: Phone, ok: bool): Phone
    requires p.poll.Choosing? && p.poll.rest != []
    ensures Turn(cfg, siteId, p, ok).poll.Choosing?
    ensures Turn(cfg, siteId, p, ok).poll.rest == p.poll.rest[1..]
  {
    var chosen := Choose(cfg, siteId, p, true);
    if chosen.poll.Choosing? then chosen
    else Finish(cfg, Sent(chosen), ok, true)
  }

  function Sent(p: Phone): Phone
    requires p.poll.Sending? && p.db.attempts != []
  {
    p.(poll := p.poll.(sent := true), sent := p.sent + [|p.db.attempts| - 1])
  }

  function Turns(cfg: SmsConfig, siteId: string, p: Phone, modem: nat -> bool, n: nat): (p': Phone)
    requires p.poll.Choosing? && n <= |p.poll.rest|
    ensures p'.poll.Choosing? && p'.poll.rest == p.poll.rest[n..]
  {
    if n == 0 then p else Turn(cfg, siteId, Turns(cfg, siteId, p, modem, n - 1), modem(n - 1))
  }

  lemma RunExtends(cfg: SmsConfig, siteId: string, steps: seq<SmsStep>, step: SmsStep)
    ensures Run(cfg, siteId, steps + [step]) == Apply(cfg, siteId, Run(cfg, siteId, steps), step)
  {
    assert (steps + [step])[..|steps|] == steps;
  }

  lemma TurnIsRun(cfg: SmsConfig, siteId: string, steps: seq<SmsStep>, ok: bool) returns (longer: seq<SmsStep>)
    requires var poll := Run(cfg, siteId, steps).poll; poll.Choosing? && poll.rest != []
    ensures Run(cfg, siteId, longer) == Turn(cfg, siteId, Run(cfg, siteId, steps), ok)
  {
    longer := steps + [ChooseStep(true)];
    RunExtends(cfg, siteId, steps, ChooseStep(true));
    if Run(cfg, siteId, longer).poll.Sending? {
      RunExtends(cfg, siteId, longer, SendStep);
      longer := longer + [SendStep];
      RunExtends(cfg, siteId, longer, FinishStep(ok, true));
      longer := longer + [FinishStep(ok, true)];
    }
  }

  /** A poll of the class below is a run, so every window and every incident limit holds across polls. */
  lemma {:induction false} PollIsRun(cfg: SmsConfig, siteId: string, steps: seq<SmsStep>, modem: nat -> bool, n: nat)
    returns (longer: seq<SmsStep>)
    requires var poll := Run(cfg, siteId, steps).poll; poll.Choosing? && n <= |poll.rest|
    ensures Run(cfg, siteId, longer) == Turns(cfg, siteId, Run(cfg, siteId, steps), modem, n)
  {
    if n == 0 {
      longer := steps;
    } else {
      var before := PollIsRun(cfg, siteId, steps, modem, n - 1);
      longer := TurnIsRun(cfg, siteId, before, modem(n - 1));
    }
  }

  // ---- The candidate query ----

  ghost predicate Listed(db: EdgeDb, now: int, keys: set<nat>, list: seq<Candidate>) {
    && (forall i, j | 0 <= i < j < |list| :: Before(list[i], list[j]))
    && (forall i | 0 <= i < |list| :: list[i].sequence in db.incidents && list[i].sequence in keys
          && Pending(db.incidents[list[i].sequence]) && list[i] == CandidateOf(db, list[i].sequence, now))
    && (forall s | s in keys && s in db.incidents && Pending(db.incidents[s]) :: CandidateOf(db, s, now) in list)
  }

  /** Where a candidate belongs in an ordered list. */
  method Position(list: seq<Candidate>, c: Candidate) returns (k: nat)
    requires forall i, j | 0 <= i < j < |list| :: Before(list[i], list[j])
    requires forall i | 0 <= i < |list| :: list[i].sequence != c.sequence
    ensures k <= |list|
    ensures forall i | 0 <= i < k :: Before(list[i], c)
    ensures forall i | k <= i < |list| :: Before(c, list[i])
  {
    k := 0;
    while k < |list| && Before(list[k], c)
      invariant k <= |list| && forall i | 0 <= i < k :: Before(list[i], c)
    {
      k := k + 1;
    }
  }

  function Inserted(list: seq<Candidate>, k: nat, c: Candidate): (after: seq<Candidate>)
    requires k <= |list|
    ensures |after| == |list| + 1
    ensures forall i | 0 <= i < |after| :: after[i] == if i < k then list[i] else if i == k then c else list[i - 1]
  {
    list[..k] + [c] + list[k..]
  }

  lemma InsertionKeepsOrder(list: seq<Candidate>, k: nat, c: Candidate)
    requires k <= |list| && forall i, j | 0 <= i < j < |list| :: Before(list[i], list[j])
    requires forall i | 0 <= i < k :: Before(list[i], c)
    requires forall i | k <= i < |list| :: Before(c, list[i])
    ensures forall i, j | 0 <= i < j < |list| + 1 :: Before(Inserted(list, k, c)[i], Inserted(list, k, c)[j])
  {
  }

  lemma InsertionKeepsMembers(list: seq<Candidate>, k: nat, c: Candidate, d: Candidate)
    requires k <= |list| && (d == c || d in list)
    ensures d in Inserted(list, k, c)
  {
    if d == c {
      assert Inserted(list, k, c)[k] == d;
    } else {
      var i :| 0 <= i < |list| && list[i] == d;
      assert Inserted(list, k, c)[if i < k then i else i + 1] == d;
    }
  }

  lemma InsertionKeepsListed(db: EdgeDb, now: int, keys: set<nat>, list: seq<Candidate>, s: nat, k: nat)
    requires Listed(db, now, keys, list) && s in db.incidents && s !in keys && Pending(db.incidents[s]) && k <= |list|
    requires forall i | 0 <= i < k :: Before(list[i], CandidateOf(db, s, now))
    requires forall i | k <= i < |list| :: Before(CandidateOf(db, s, now), list[i])
    ensures Listed(db, now, keys + {s}, Inserted(list, k, CandidateOf(db, s, now)))
  {
    var c := CandidateOf(db, s, now);
    InsertionKeepsOrder(list, k, c);
    forall t | t in keys + {s} && t in db.incidents && Pending(db.incidents[t]) ensures CandidateOf(db, t, now) in Inserted(list, k, c) {
      InsertionKeepsMembers(list, k, c, CandidateOf(db, t, now));
    }
  }

  method FallbackCandidates(store: Store, now: int) returns (list: seq<Candidate>)
    ensures CandidateList(store.Db(), now, list)
  {
    var left := store.incidents.Keys;
    list := [];
    while left != {}
      invariant left <= store.incidents.Keys
      invariant Listed(store.Db(), now, store.incidents.Keys - left, list)
      decreases left
    {
      var s :| s in left;
      if Pending(store.incidents[s]) {
        var c := CandidateOf(store.Db(), s, now);
        var k := Position(list, c);
        InsertionKeepsListed(store.Db(), now, store.incidents.Keys - left, list, s, k);
        list := Inserted(list, k, c);
      }
      assert store.incidents.Keys - (left - {s}) == store.incidents.Keys - left + {s};
      left := left - {s};
    }
    assert store.incidents.Keys - left == store.incidents.Keys;
  }

  // ---- The coordinator ----

  predicate HeartbeatFormats(siteId: string, gatewayId: string, interval: int, sequence: nat, now: int) {
    && sequence < UINT64_LIMIT && -INT64_LIMIT <= now < INT64_LIMIT
    && SmsMessages.FormatHeartbeat(SmsMessages.Heartbeat(siteId, gatewayId, sequence, interval * 1_000_000, Some(now))).Ok?
  }

  /** A heartbeat is due and its text can be printed: the modem is asked. */
  predicate BeatGoesOut(cfg: SmsConfig, hb: Heartbeats.HeartbeatConfig, siteId: string, gatewayId: string, db: EdgeDb, startedAt: int, now: int) {
    && Heartbeats.Due(cfg, hb, Heartbeats.StateAt(db, now), startedAt, now)
    && HeartbeatFormats(siteId, gatewayId, hb.interval, db.lastHeartbeat + 1, now)
  }

  function AfterBeat(cfg: SmsConfig, hb: Heartbeats.HeartbeatConfig, db: EdgeDb, startedAt: int, now: int, delivered: bool): EdgeDb {
    if Heartbeats.Due(cfg, hb, Heartbeats.StateAt(db, now), startedAt, now)
    then RecordHeartbeat(ReserveHeartbeat(db, now), db.lastHeartbeat + 1, delivered)
    else db
  }

  /** Taking over what the candidates wrote, then polling at time now. */
  lemma PollingIsRun(cfg: SmsConfig, hb: Heartbeats.HeartbeatConfig, steps: seq<Heartbeats.BeatStep>, db: EdgeDb, now: int)
    returns (longer: seq<Heartbeats.BeatStep>)
    requires var b := Heartbeats.Run(cfg, hb, steps); db.heartbeats == b.db.heartbeats && db.lastHeartbeat == b.db.lastHeartbeat
    ensures Heartbeats.Run(cfg, hb, longer) ==
      Heartbeats.Apply(cfg, hb, Heartbeats.Run(cfg, hb, steps).(db := db), Heartbeats.PollStep(now))
  {
    var stored := StoringIsRun(cfg, hb, steps, db);
    Heartbeats.RunExtends(cfg, hb, stored, Heartbeats.PollStep(now));
    longer := stored + [Heartbeats.PollStep(now)];
  }

  lemma StoringIsRun(cfg: SmsConfig, hb: Heartbeats.HeartbeatConfig, steps: seq<Heartbeats.BeatStep>, db: EdgeDb)
    returns (longer: seq<Heartbeats.BeatStep>)
    requires var b := Heartbeats.Run(cfg, hb, steps); db.heartbeats == b.db.heartbeats && db.lastHeartbeat == b.db.lastHeartbeat
    ensures Heartbeats.Run(cfg, hb, longer) == Heartbeats.Run(cfg, hb, steps).(db := db)
  {
    longer := steps + [Heartbeats.StoreStep(db)];
    Heartbeats.RunExtends(cfg, hb, steps, Heartbeats.StoreStep(db));
  }

  /** The heartbeat part of a poll, after candidates that left the database at db, is a run of the heartbeat machine. */
  lemma {:induction false} BeatIsRun(cfg: SmsConfig, hb: Heartbeats.HeartbeatConfig, steps: seq<Heartbeats.BeatStep>, db: EdgeDb, now: int, delivered: bool)
    returns (longer: seq<Heartbeats.BeatStep>)
    requires var b := Heartbeats.Run(cfg, hb, steps); db.heartbeats == b.db.heartbeats && db.lastHeartbeat == b.db.lastHeartbeat
    ensures var b, b' := Heartbeats.Run(cfg, hb, steps), Heartbeats.Run(cfg, hb, longer);
      && b'.db == AfterBeat(cfg, hb, db, Heartbeats.Started(b, now), now, delivered)
      && b'.startedAt == Some(Heartbeats.Started(b, now))
  {
    var b := Heartbeats.Run(cfg, hb, steps);
    longer := PollingIsRun(cfg, hb, steps, db, now);
    if Heartbeats.Due(cfg, hb, Heartbeats.StateAt(db, now), Heartbeats.Started(b, now), now) {
      var recorded := Heartbeats.RecordStep(db.lastHeartbeat + 1, delivered);
      Heartbeats.RunExtends(cfg, hb, longer, recorded);
      longer := longer + [recorded];
    }
  }

  lemma BeatIsSmsFrame(cfg: SmsConfig, hb: Heartbeats.HeartbeatConfig, db: EdgeDb, startedAt: int, now: int, delivered: bool)
    ensures SmsFrame(db, AfterBeat(cfg, hb, db, startedAt, now, delivered))
  {
  }

  lemma {:induction false} TurnsKeepHeartbeats(cfg: SmsConfig, siteId: string, p: Phone, modem: nat -> bool, n: nat)
    requires p.poll.Choosing? && n <= |p.poll.rest|
    ensures Turns(cfg, siteId, p, modem, n).db.heartbeats == p.db.heartbeats
    ensures Turns(cfg, siteId, p, modem, n).db.lastHeartbeat == p.db.lastHeartbeat
  {
    if n > 0 {
      TurnsKeepHeartbeats(cfg, siteId, p, modem, n - 1);
      TurnKeepsHeartbeats(cfg, siteId, Turns(cfg, siteId, p, modem, n - 1), modem(n - 1));
    }
  }

  lemma TurnKeepsHeartbeats(cfg: SmsConfig, siteId: string, p: Phone, ok: bool)
    requires p.poll.Choosing? && p.poll.rest != []
    ensures Turn(cfg, siteId, p, ok).db.heartbeats == p.db.heartbeats && Turn(cfg, siteId, p, ok).db.lastHeartbeat == p.db.lastHeartbeat
  {
  }

  /**
   A whole poll, candidates and heartbeat, is at once a run of the rate-limiting machine
   and a run of the heartbeat machine over the same database: both budgets hold of it.
   */
  lemma {:induction false} WholePollIsRun(
    cfg: SmsConfig, siteId: string, hb: Heartbeats.HeartbeatConfig, steps: seq<SmsStep>, beats: seq<Heartbeats.BeatStep>,
    now: int, list: seq<Candidate>, modem: nat -> bool, delivered: bool)
    returns (steps': seq<SmsStep>, beats': seq<Heartbeats.BeatStep>)
    requires Heartbeats.Run(cfg, hb, beats).db == Run(cfg, siteId, steps).db
    requires CandidateList(Run(cfg, siteId, steps).db, now, list)
    ensures var p, b := Run(cfg, siteId, steps), Heartbeats.Run(cfg, hb, beats);
      var turned := Turns(cfg, siteId, p.(poll := Choosing(now, list, 0, 0)), modem, |list|);
      var db := AfterBeat(cfg, hb, turned.db, Heartbeats.Started(b, now), now, delivered);
      && Run(cfg, siteId, steps').db == db && Run(cfg, siteId, steps').sent == turned.sent
      && Heartbeats.Run(cfg, hb, beats').db == db
      && Heartbeats.Run(cfg, hb, beats').startedAt == Some(Heartbeats.Started(b, now))
  {
    var p, b := Run(cfg, siteId, steps), Heartbeats.Run(cfg, hb, beats);
    RunExtends(cfg, siteId, steps, SmsLimits.PollStep(now, list));
    var started := steps + [SmsLimits.PollStep(now, list)];
    var turned := PollIsRun(cfg, siteId, started, modem, |list|);
    TurnsKeepHeartbeats(cfg, siteId, Run(cfg, siteId, started), modem, |list|);
    var db := Run(cfg, siteId, turned).db;
    beats' := BeatIsRun(cfg, hb, beats, db, now, delivered);
    var after := AfterBeat(cfg, hb, db, Heartbeats.Started(b, now), now, delivered);
    BeatIsSmsFrame(cfg, hb, db, Heartbeats.Started(b, now), now, delivered);
    RunExtends(cfg, siteId, turned, SmsLimits.StoreStep(after));
    steps' := turned + [SmsLimits.StoreStep(after)];
  }

  class Coordinator {
    const cfg: SmsConfig
    const siteId: string
    const gatewayId: string
    const heartbeat: Heartbeats.HeartbeatConfig
    const store: Store
    var startedAt: Option<int>
    var transmitted: seq<nat>
    var beats: seq<nat>

    constructor (cfg: SmsConfig, siteId: string, gatewayId: string, heartbeat: Heartbeats.HeartbeatConfig, store: Store)
      ensures this.cfg == cfg.Clamped() && this.cfg.InRange()
      ensures this.siteId == siteId && this.gatewayId == gatewayId && this.heartbeat == heartbeat && this.store == store
      ensures startedAt.None? && transmitted == [] && beats == []
    {
      this.cfg := cfg.Clamped();
      this.siteId, this.gatewayId, this.heartbeat, this.store := siteId, gatewayId, heartbeat, store;
      startedAt, transmitted, beats := None, [], [];
      new;
      ClampedInRange(cfg);
    }

    /** One poll: critical incidents first, then at most one heartbeat. */
    method RunOnce(now: int, modem: nat -> bool, beatDelivered: bool) returns (list: seq<Candidate>, beatSent: bool)
      modifies this, store
      ensures startedAt == Some(if old(startedAt).Some? then old(startedAt).value else now)
      ensures CandidateList(old(store.Db()), now, list)
      ensures var p := Turns(cfg, siteId, Phone(old(store.Db()), Choosing(now, list, 0, 0), old(transmitted)), modem, |list|);
        var goesOut := BeatGoesOut(cfg, heartbeat, siteId, gatewayId, p.db, startedAt.value, now);
        && transmitted == p.sent
        && store.Db() == AfterBeat(cfg, heartbeat, p.db, startedAt.value, now, beatSent)
        && beatSent == (goesOut && beatDelivered)
        && beats == old(beats) + if goesOut then [p.db.lastHeartbeat + 1] else []
    {
      if startedAt.None? {
        startedAt := Some(now);
      }
      list := FallbackCandidates(store, now);
      ghost var start := Phone(store.Db(), Choosing(now, list, 0, 0), transmitted);
      Attempt(list, now, modem);
      assert transmitted == Turns(cfg, siteId, start, modem, |list|).sent && store.Db() == Turns(cfg, siteId, start, modem, |list|).db;
      beatSent := RunHeartbeat(now, beatDelivered);
    }

    method Attempt(list: seq<Candidate>, now: int, modem: nat -> bool)
      modifies this`transmitted, store
      ensures var p := Turns(cfg, siteId, Phone(old(store.Db()), Choosing(now, list, 0, 0), old(transmitted)), modem, |list|);
        transmitted == p.sent && store.Db() == p.db
    {
      var hourAttempts, dayAttempts := 0, 0;
      ghost var start := Phone(store.Db(), Choosing(now, list, 0, 0), transmitted);
      for i := 0 to |list|
        invariant Phone(store.Db(), Choosing(now, list[i..], hourAttempts, dayAttempts), transmitted)
               == Turns(cfg, siteId, start, modem, i)
      {
        hourAttempts, dayAttempts := AttemptFirst(list[i..], now, hourAttempts, dayAttempts, modem(i));
      }
    }

    /** The first of the remaining candidates: skipped, or reserved, sent and recorded. */
    method AttemptFirst(rest: seq<Candidate>, now: int, hour: nat, day: nat, ok: bool) returns (hour': nat, day': nat)
      requires rest != []
      modifies this`transmitted, store
      ensures Phone(store.Db(), Choosing(now, rest[1..], hour', day'), transmitted)
           == Turn(cfg, siteId, Phone(old(store.Db()), Choosing(now, rest, hour, day), old(transmitted)), ok)
    {
      var candidate := rest[0];
      if !MaySend(cfg, candidate, hour, day, now) || !Formats(siteId, candidate) {
        return hour, day;
      }
      var reserved := store.ReserveFallbackAttempt(candidate.sequence, now, cfg.retryInterval);
      if !reserved {
        return hour, day;
      }
      SendReserved(candidate.sequence, now, ok);
      return hour + 1, day + 1;
    }

    /** The last reservation is transmitted and its outcome recorded; a failed send asks for the next attempt. */
    method SendReserved(key: nat, now: int, ok: bool)
      requires store.attempts != []
      modifies this`transmitted, store
      ensures transmitted == old(transmitted) + [|old(store.attempts)| - 1]
      ensures store.Db() == Recorded(cfg, old(store.Db()), key, now, ok)
    {
      transmitted := transmitted + [|store.attempts| - 1];
      var next := if ok then None else Some(now + cfg.retryInterval);
      var recorded := store.RecordFallbackAttempt(key, now, ok, next);
    }

    method RunHeartbeat(now: int, delivered: bool) returns (ok: bool)
      requires startedAt.Some?
      modifies this`beats, store
      ensures store.Db() == AfterBeat(cfg, heartbeat, old(store.Db()), startedAt.value, now, ok)
      ensures var goesOut := BeatGoesOut(cfg, heartbeat, siteId, gatewayId, old(store.Db()), startedAt.value, now);
        && ok == (goesOut && delivered)
        && beats == old(beats) + if goesOut then [old(store.lastHeartbeat) + 1] else []
    {
      ok := false;
      var state := Heartbeats.StateAt(store.Db(), now);
      if !Heartbeats.Due(cfg, heartbeat, state, startedAt.value, now) {
        return;
      }
      var sequence := store.ReserveHeartbeatAttempt(now);
      if HeartbeatFormats(siteId, gatewayId, heartbeat.interval, sequence, now) {
        beats := beats + [sequence];
        ok := delivered;
      }
      store.RecordHeartbeatAttempt(sequence, ok);
    }
  }
}
