/** SMS liveness on the platform: what a heartbeat vouches for, and when a site may be called offline. */
module SiteHealth {
  import opened Prelude
  import opened Text
  import SmsMessages

  // ---- Heartbeats received ----

  datatype Heartbeat = Heartbeat(siteId: string, gatewayId: string, sequence: nat, interval: int, sentAt: int)

  /** A stored heartbeat; times are integer milliseconds. */
  datatype Row = Row(siteId: string, sentAt: int, interval: int, contactAt: int, expiresAt: int)

  /** Both tables, for all sites. */
  datatype Board = Board(rows: map<string, Row>, receipts: map<string, string>)

  function Key(h: Heartbeat): string {
    "hb:" + h.siteId + ":" + h.gatewayId + ":" + PrintNat(h.sequence)
  }

  /**
   What the webhook passes on: identities of plain characters, a positive sequence, a stamp in whole seconds after
   the epoch.
   */
  predicate Receivable(h: Heartbeat) {
    && SmsMessages.ValidToken(h.siteId) && SmsMessages.ValidToken(h.gatewayId)
    && h.sequence > 0 && h.sentAt > 0 && h.sentAt % 1000 == 0
  }

  predicate SameIdentity(h: Heartbeat, h': Heartbeat) {
    h.siteId == h'.siteId && h.gatewayId == h'.gatewayId && h.sequence == h'.sequence
  }

  lemma KeyParts(h: Heartbeat)
    requires Receivable(h)
    ensures Cut(Key(h)[3..], ':') == Some((h.siteId, h.gatewayId + [':'] + PrintNat(h.sequence)))
    ensures Cut(h.gatewayId + [':'] + PrintNat(h.sequence), ':') == Some((h.gatewayId, PrintNat(h.sequence)))
  {
    assert Key(h)[3..] == h.siteId + [':'] + (h.gatewayId + [':'] + PrintNat(h.sequence));
    CutAtFirst(h.siteId, ':', h.gatewayId + [':'] + PrintNat(h.sequence));
    CutAtFirst(h.gatewayId, ':', PrintNat(h.sequence));
  }

  /** Over all sites and gateways, different heartbeats have different keys. */
  lemma HeartbeatKeysDistinct(h: Heartbeat, h': Heartbeat)
    requires Receivable(h) && Receivable(h') && Key(h) == Key(h')
    ensures SameIdentity(h, h')
  {
    KeyParts(h);
    KeyParts(h');
    PrintedNumeral(h.sequence);
    PrintedNumeral(h'.sequence);
  }

  /** Neither a clock running ahead nor a slow delivery makes a heartbeat look fresher than it is. */
  function ContactAt(h: Heartbeat, receivedAt: int): int {
    if h.sentAt < receivedAt then h.sentAt else receivedAt
  }

  function ExpiresAt(h: Heartbeat, contactAt: int): int {
    contactAt + h.interval * 5 / 2
  }

  function RowOf(h: Heartbeat, receivedAt: int): Row {
    Row(h.siteId, h.sentAt, h.interval, ContactAt(h, receivedAt), ExpiresAt(h, ContactAt(h, receivedAt)))
  }

  function RecordReceipt(b: Board, key: string, provider: string): Option<Board> {
    if provider !in b.receipts then Some(b.(receipts := b.receipts[provider := key]))
    else if b.receipts[provider] == key then Some(b)
    else None
  }

  /**
   What the heartbeat table's columns accept: a positive 64-bit sequence and a whole number of seconds from one
   minute to one day.
   */
  predicate Storable(h: Heartbeat) {
    1 <= h.sequence < INT64_LIMIT && 60_000 <= h.interval <= 86_400_000 && h.interval % 1000 == 0
  }

  /** One authenticated heartbeat; None is a conflict or a refused row, and leaves the board alone. */
  function Receive(b: Board, h: Heartbeat, provider: string, receivedAt: int): Option<Board> {
    if Key(h) in b.rows then
      if b.rows[Key(h)].sentAt == h.sentAt && b.rows[Key(h)].interval == h.interval
      then RecordReceipt(b, Key(h), provider) else None
    else if !Storable(h) then None
    else RecordReceipt(b.(rows := b.rows[Key(h) := RowOf(h, receivedAt)]), Key(h), provider)
  }

  datatype Delivery = Delivery(heartbeat: Heartbeat, provider: string, receivedAt: int)

  function Step(b: Board, d: Delivery): Board {
    var after := Receive(b, d.heartbeat, d.provider, d.receivedAt);
    if after.Some? then after.value else b
  }

  function After(deliveries: seq<Delivery>): Board {
    if deliveries == [] then Board(map[], map[])
    else Step(After(deliveries[..|deliveries| - 1]), deliveries[|deliveries| - 1])
  }

  lemma StepKeepsRows(b: Board, d: Delivery, key: string)
    ensures key in b.rows ==> key in Step(b, d).rows && Step(b, d).rows[key] == b.rows[key]
    ensures key in Step(b, d).rows && key !in b.rows ==>
      key == Key(d.heartbeat) && Step(b, d).rows[key] == RowOf(d.heartbeat, d.receivedAt)
  {
  }

  /** Redelivery, reordering and conflicts never move a stored heartbeat. */
  lemma {:induction false} RowsPersist(deliveries: seq<Delivery>, n: nat, key: string)
    requires n <= |deliveries| && key in After(deliveries[..n]).rows
    ensures key in After(deliveries).rows && After(deliveries).rows[key] == After(deliveries[..n]).rows[key]
  {
    if n == |deliveries| {
      assert deliveries[..n] == deliveries;
    } else {
      var last := |deliveries| - 1;
      assert deliveries[..last][..n] == deliveries[..n];
      RowsPersist(deliveries[..last], n, key);
      StepKeepsRows(After(deliveries[..last]), deliveries[last], key);
    }
  }

  /** Delivery i is the one that stored its heartbeat. */
  ghost predicate Stores(deliveries: seq<Delivery>, i: nat)
    requires i < |deliveries|
  {
    var d := deliveries[i];
    Key(d.heartbeat) !in After(deliveries[..i]).rows && Receive(After(deliveries[..i]), d.heartbeat, d.provider, d.receivedAt).Some?
  }

  function StoredRow(d: Delivery): Row {
    RowOf(d.heartbeat, d.receivedAt)
  }

  lemma PrefixStep(deliveries: seq<Delivery>, i: nat)
    requires i < |deliveries|
    ensures After(deliveries[..i + 1]) == Step(After(deliveries[..i]), deliveries[i])
  {
    assert deliveries[..i + 1][..i] == deliveries[..i];
  }

  /** A storing delivery is what the table shows for its key from then on. */
  lemma StoresAreRows(deliveries: seq<Delivery>, i: nat)
    requires i < |deliveries| && Stores(deliveries, i)
    ensures Key(deliveries[i].heartbeat) in After(deliveries).rows
    ensures After(deliveries).rows[Key(deliveries[i].heartbeat)] == StoredRow(deliveries[i])
  {
    PrefixStep(deliveries, i);
    RowsPersist(deliveries, i + 1, Key(deliveries[i].heartbeat));
  }

  /** Every stored row is that of one storing delivery. */
  lemma {:induction false} RowsAreStores(deliveries: seq<Delivery>, key: string)
    requires key in After(deliveries).rows
    ensures exists i | 0 <= i < |deliveries| ::
      Stores(deliveries, i) && Key(deliveries[i].heartbeat) == key && After(deliveries).rows[key] == StoredRow(deliveries[i])
  {
    var last := |deliveries| - 1;
    var before := deliveries[..last];
    StepKeepsRows(After(before), deliveries[last], key);
    if key in After(before).rows {
      RowsAreStores(before, key);
      var i :| 0 <= i < last && Stores(before, i) && Key(before[i].heartbeat) == key && After(before).rows[key] == StoredRow(before[i]);
      assert before[..i] == deliveries[..i];
      assert Stores(deliveries, i);
    } else {
      assert Stores(deliveries, last);
    }
  }

  // ---- Status ----

  datatype Status = Live | Delayed | Offline

  datatype Site = Site(
    siteId: string,
    lastContactAt: Option<int>,
    heartbeatExpiresAt: Option<int>,
    lastEventAt: Option<int>,
    queueGrowing: bool,
    health: Status)

  datatype Thresholds = Thresholds(offlineAfter: int, eventStaleAfter: int)

  function HealthOf(site: Site, now: int, t: Thresholds): Status {
    var httpFresh := site.lastContactAt.Some? && site.lastContactAt.value >= now - t.offlineAfter;
    if !httpFresh then
      if site.heartbeatExpiresAt.Some? && site.heartbeatExpiresAt.value > now then Delayed else Offline
    else if site.lastEventAt.None? || site.lastEventAt.value < now - t.eventStaleAfter || site.queueGrowing then Delayed
    else Live
  }

  /** The listing query joins a site with that of its heartbeats that has the latest contact. */
  ghost predicate Latest(rows: map<string, Row>, siteId: string, key: string) {
    && key in rows && rows[key].siteId == siteId
    && forall k | k in rows && rows[k].siteId == siteId :: rows[k].contactAt <= rows[key].contactAt
  }

  /** What the listing shows for a site while these heartbeats are stored. */
  ghost predicate Lists(site: Site, rows: map<string, Row>) {
    match site.heartbeatExpiresAt
    case None => forall k | k in rows :: rows[k].siteId != site.siteId
    case Some(expiry) => exists key :: Latest(rows, site.siteId, key) && rows[key].expiresAt == expiry
  }

  lemma {:induction false} LatestExists(rows: map<string, Row>, keys: set<string>) returns (key: string)
    requires keys != {} && keys <= rows.Keys
    ensures key in keys && forall k | k in keys :: rows[k].contactAt <= rows[key].contactAt
    decreases keys
  {
    key :| key in keys;
    if keys != {key} {
      var best := LatestExists(rows, keys - {key});
      if rows[best].contactAt > rows[key].contactAt {
        key := best;
      }
    }
  }

  /** Every site is listed with some expiry, or with none. */
  lemma EverySiteIsListed(rows: map<string, Row>, siteId: string) returns (site: Site)
    ensures site.siteId == siteId && Lists(site, rows)
  {
    var own := set k | k in rows && rows[k].siteId == siteId;
    if own == {} {
      site := Site(siteId, None, None, None, false, Live);
      assert forall k | k in rows :: rows[k].siteId == siteId ==> k in own;
    } else {
      var key := LatestExists(rows, own);
      assert Latest(rows, siteId, key);
      site := Site(siteId, None, Some(rows[key].expiresAt), None, false, Live);
    }
  }

  // ---- When an unexpired heartbeat keeps a site from being reported offline ----

  ghost predicate Unexpired(rows: map<string, Row>, siteId: string, now: int) {
    exists k :: k in rows && rows[k].siteId == siteId && rows[k].expiresAt > now
  }

  /** The promise: while any heartbeat stored for the site has not expired, no listing calls it offline. */
  ghost predicate NeverHidden(rows: map<string, Row>, siteId: string) {
    forall site: Site, now: int, t: Thresholds ::
      site.siteId == siteId && Lists(site, rows) && Unexpired(rows, siteId, now) ==> HealthOf(site, now, t) != Offline
  }

  /** Every row of the site with its latest contact, ties included, also expires last. */
  ghost predicate LatestExpiresLast(rows: map<string, Row>, siteId: string) {
    forall l, k :: Latest(rows, siteId, l) && k in rows && rows[k].siteId == siteId ==> rows[k].expiresAt <= rows[l].expiresAt
  }

  /** The promise holds of a site exactly when its latest contact expires last. */
  lemma HiddenUnlessLatestExpiresLast(rows: map<string, Row>, siteId: string)
    ensures NeverHidden(rows, siteId) <==> LatestExpiresLast(rows, siteId)
  {
    if LatestExpiresLast(rows, siteId) {
      forall site: Site, now: int, t: Thresholds | site.siteId == siteId && Lists(site, rows) && Unexpired(rows, siteId, now)
        ensures HealthOf(site, now, t) != Offline
      {
        var k :| k in rows && rows[k].siteId == siteId && rows[k].expiresAt > now;
        var l :| Latest(rows, siteId, l) && rows[l].expiresAt == site.heartbeatExpiresAt.value;
      }
    }
    if NeverHidden(rows, siteId) {
      forall l, k | Latest(rows, siteId, l) && k in rows && rows[k].siteId == siteId ensures rows[k].expiresAt <= rows[l].expiresAt {
        var now := rows[l].expiresAt;
        var site := Site(siteId, None, Some(now), None, false, Live);
        assert Lists(site, rows) && HealthOf(site, now, Thresholds(0, 0)) == Offline;
        assert rows[k].expiresAt <= now || Unexpired(rows, siteId, now);
      }
    }
  }

  function Contact(d: Delivery): int {
    ContactAt(d.heartbeat, d.receivedAt)
  }

  /** Delivery k stored a heartbeat of this site. */
  ghost predicate StoresFor(deliveries: seq<Delivery>, siteId: string, k: nat) {
    k < |deliveries| && deliveries[k].heartbeat.siteId == siteId && Stores(deliveries, k)
  }

  ghost predicate LatestStored(deliveries: seq<Delivery>, siteId: string, i: nat) {
    && StoresFor(deliveries, siteId, i)
    && forall k: nat | StoresFor(deliveries, siteId, k) :: Contact(deliveries[k]) <= Contact(deliveries[i])
  }

  /**
   The same condition over the heartbeats delivered: contact plus two and a half intervals, of the site's latest
   contact and of any other.
   */
  ghost predicate LatestDeliveryExpiresLast(deliveries: seq<Delivery>, siteId: string) {
    forall i: nat, k: nat | LatestStored(deliveries, siteId, i) && StoresFor(deliveries, siteId, k) ::
      Contact(deliveries[k]) + deliveries[k].heartbeat.interval * 5 / 2 <= Contact(deliveries[i]) + deliveries[i].heartbeat.interval * 5 / 2
  }

  lemma LatestRowIsLatestDelivery(deliveries: seq<Delivery>, siteId: string, i: nat)
    requires StoresFor(deliveries, siteId, i)
    ensures Latest(After(deliveries).rows, siteId, Key(deliveries[i].heartbeat)) <==> LatestStored(deliveries, siteId, i)
  {
    var rows := After(deliveries).rows;
    StoresAreRows(deliveries, i);
    if LatestStored(deliveries, siteId, i) {
      forall key | key in rows && rows[key].siteId == siteId ensures rows[key].contactAt <= Contact(deliveries[i]) {
        var k := RowIsStore(deliveries, siteId, key);
      }
    }
    if Latest(rows, siteId, Key(deliveries[i].heartbeat)) {
      forall k: nat | StoresFor(deliveries, siteId, k) ensures Contact(deliveries[k]) <= Contact(deliveries[i]) {
        StoresAreRows(deliveries, k);
      }
    }
  }

  lemma RowIsStore(deliveries: seq<Delivery>, siteId: string, key: string) returns (i: nat)
    requires key in After(deliveries).rows && After(deliveries).rows[key].siteId == siteId
    ensures StoresFor(deliveries, siteId, i) && Key(deliveries[i].heartbeat) == key && After(deliveries).rows[key] == StoredRow(deliveries[i])
  {
    RowsAreStores(deliveries, key);
    i :| 0 <= i < |deliveries| && Stores(deliveries, i) && Key(deliveries[i].heartbeat) == key && After(deliveries).rows[key] == StoredRow(deliveries[i]);
  }

  /**
   For every delivery log of any number of sites, with repeats, reordering and conflicts: exactly when a site's
   report can be wrong.
   */
  lemma {:induction false} NeverHiddenExactly(deliveries: seq<Delivery>, siteId: string)
    ensures NeverHidden(After(deliveries).rows, siteId) <==> LatestDeliveryExpiresLast(deliveries, siteId)
  {
    var rows := After(deliveries).rows;
    HiddenUnlessLatestExpiresLast(rows, siteId);
    if LatestExpiresLast(rows, siteId) {
      forall i: nat, k: nat | LatestStored(deliveries, siteId, i) && StoresFor(deliveries, siteId, k)
        ensures StoredRow(deliveries[k]).expiresAt <= StoredRow(deliveries[i]).expiresAt
      {
        LatestRowIsLatestDelivery(deliveries, siteId, i);
        StoresAreRows(deliveries, i);
        StoresAreRows(deliveries, k);
      }
    }
    if LatestDeliveryExpiresLast(deliveries, siteId) {
      forall l, k | Latest(rows, siteId, l) && k in rows && rows[k].siteId == siteId ensures rows[k].expiresAt <= rows[l].expiresAt {
        var i := RowIsStore(deliveries, siteId, l);
        var j := RowIsStore(deliveries, siteId, k);
        LatestRowIsLatestDelivery(deliveries, siteId, i);
      }
    }
  }

  lemma CommonIntervalExpiresInOrder(deliveries: seq<Delivery>, siteId: string, interval: int)
    requires forall i | 0 <= i < |deliveries| && deliveries[i].heartbeat.siteId == siteId :: deliveries[i].heartbeat.interval == interval
    ensures LatestDeliveryExpiresLast(deliveries, siteId)
  {
    forall i: nat, k: nat | LatestStored(deliveries, siteId, i) && StoresFor(deliveries, siteId, k)
      ensures Contact(deliveries[k]) + deliveries[k].heartbeat.interval * 5 / 2 <= Contact(deliveries[i]) + deliveries[i].heartbeat.interval * 5 / 2
    {
      assert Contact(deliveries[k]) <= Contact(deliveries[i]);
      assert deliveries[k].heartbeat.interval == interval == deliveries[i].heartbeat.interval;
    }
  }

  const HOURLY := Heartbeat("s", "g", 1, 3_600_000, 1_000)
  const MINUTELY := Heartbeat("s", "h", 1, 60_000, 61_000)
  const MIXED := [Delivery(HOURLY, "p", 1_000), Delivery(MINUTELY, "q", 61_000)]

  lemma MixedRows()
    ensures Key(HOURLY) != Key(MINUTELY)
    ensures After(MIXED).rows == map[Key(HOURLY) := RowOf(HOURLY, 1_000), Key(MINUTELY) := RowOf(MINUTELY, 61_000)]
  {
    assert Key(HOURLY)[5] == 'g' && Key(MINUTELY)[5] == 'h';
    assert MIXED[..0] == [] && MIXED[..1] == [MIXED[0]] && MIXED[..2] == MIXED;
    PrefixStep(MIXED, 0);
    PrefixStep(MIXED, 1);
  }

  /** Two gateways of one site: the minutely one fell silent, the hourly one is alive, and the site is reported offline. */
  lemma ShorterIntervalHidesLonger() returns (site: Site, now: int)
    ensures forall i | 0 <= i < |MIXED| :: Receivable(MIXED[i].heartbeat) && Storable(MIXED[i].heartbeat)
    ensures Lists(site, After(MIXED).rows) && Unexpired(After(MIXED).rows, site.siteId, now)
    ensures forall t :: HealthOf(site, now, t) == Offline
  {
    MixedRows();
    var rows := After(MIXED).rows;
    now := 1_000_000;
    site := Site("s", None, Some(RowOf(MINUTELY, 61_000).expiresAt), None, false, Live);
    assert Latest(rows, "s", Key(MINUTELY));
    assert rows[Key(HOURLY)].expiresAt > now;
  }

  // ---- A gateway that keeps sending ----

  /** A heartbeat and when it really left. Its stamp is printed in whole seconds by a clock of its own. */
  datatype Beat = Beat(heartbeat: Heartbeat, at: int)

  /** Beats of one site, at most two intervals apart; slack bounds how far the stamp may lie behind the send time. */
  ghost predicate Regular(beats: seq<Beat>, siteId: string, interval: int, slack: nat) {
    && (forall i | 0 <= i < |beats| :: beats[i].heartbeat.siteId == siteId && beats[i].heartbeat.interval == interval)
    && (forall i | 0 <= i < |beats| :: beats[i].at <= beats[i].heartbeat.sentAt + slack)
    && (forall i | 0 <= i < |beats| - 1 :: beats[i + 1].at <= beats[i].at + 2 * interval)
  }

  ghost predicate Delivered(log: seq<Delivery>, h: Heartbeat) {
    exists k | 0 <= k < |log| :: log[k].heartbeat == h
  }

  /** A gateway uses a sequence for one heartbeat only, a provider a message id for one message only. */
  ghost predicate Consistent(log: seq<Delivery>) {
    && (forall i | 0 <= i < |log| :: Receivable(log[i].heartbeat) && Storable(log[i].heartbeat))
    && (forall i, j | 0 <= i < |log| && 0 <= j < |log| && SameIdentity(log[i].heartbeat, log[j].heartbeat) :: log[i].heartbeat == log[j].heartbeat)
    && (forall i, j | 0 <= i < |log| && 0 <= j < |log| && log[i].provider == log[j].provider :: log[i].heartbeat == log[j].heartbeat)
  }

  lemma SameKeySameHeartbeat(log: seq<Delivery>, i: nat, j: nat)
    requires Consistent(log) && i < |log| && j < |log| && Key(log[i].heartbeat) == Key(log[j].heartbeat)
    ensures log[i].heartbeat == log[j].heartbeat
  {
    HeartbeatKeysDistinct(log[i].heartbeat, log[j].heartbeat);
  }

  /**
   Nothing arrives before it was sent, and by now every beat older than half an interval, less the slack, has
   arrived at least once.
   */
  ghost predicate InTime(log: seq<Delivery>, beats: seq<Beat>, interval: int, slack: nat, now: int) {
    && (forall k, i | 0 <= k < |log| && 0 <= i < |beats| && log[k].heartbeat == beats[i].heartbeat :: beats[i].at <= log[k].receivedAt)
    && (forall i | 0 <= i < |beats| && 2 * (now - beats[i].at + slack) >= interval :: Delivered(log, beats[i].heartbeat))
  }

  ghost predicate ReceiptsMatch(log: seq<Delivery>, b: Board) {
    forall p | p in b.receipts :: exists i | 0 <= i < |log| :: log[i].provider == p && Key(log[i].heartbeat) == b.receipts[p]
  }

  lemma StepReceipts(b: Board, d: Delivery, p: string)
    requires p in Step(b, d).receipts
    ensures (p in b.receipts && Step(b, d).receipts[p] == b.receipts[p]) || (p == d.provider && Step(b, d).receipts[p] == Key(d.heartbeat))
  {
  }

  lemma {:induction false} ReceiptsAreDeliveries(log: seq<Delivery>)
    ensures ReceiptsMatch(log, After(log))
  {
    if log != [] {
      var last := |log| - 1;
      ReceiptsAreDeliveries(log[..last]);
      forall p | p in After(log).receipts
        ensures exists i | 0 <= i < |log| :: log[i].provider == p && Key(log[i].heartbeat) == After(log).receipts[p]
      {
        StepReceipts(After(log[..last]), log[last], p);
        if p in After(log[..last]).receipts {
          var i :| 0 <= i < last && log[..last][i].provider == p && Key(log[..last][i].heartbeat) == After(log[..last]).receipts[p];
          assert log[i].provider == p;
        } else {
          assert log[last].provider == p;
        }
      }
    }
  }

  /**
   In a consistent log no delivery is refused: every delivered heartbeat is in the table, as one of its deliveries
   stored it.
   */
  lemma {:induction false} DeliveredIsStored(log: seq<Delivery>, i: nat) returns (k: nat)
    requires Consistent(log) && i < |log|
    ensures k < |log| && log[k].heartbeat == log[i].heartbeat
    ensures Key(log[i].heartbeat) in After(log).rows && After(log).rows[Key(log[i].heartbeat)] == StoredRow(log[k])
  {
    var key := Key(log[i].heartbeat);
    if key !in After(log[..i]).rows {
      ReceiptsAreDeliveries(log[..i]);
      assert Stores(log, i) by {
        var receipts := After(log[..i]).receipts;
        if log[i].provider in receipts {
          var j :| 0 <= j < i && log[..i][j].provider == log[i].provider && Key(log[..i][j].heartbeat) == receipts[log[i].provider];
          assert log[..i][j] == log[j];
        }
      }
      StoresAreRows(log, i);
      k := i;
    } else {
      RowsPersist(log, i, key);
      RowsAreStores(log, key);
      k :| 0 <= k < |log| && Stores(log, k) && Key(log[k].heartbeat) == key && After(log).rows[key] == StoredRow(log[k]);
      SameKeySameHeartbeat(log, i, k);
    }
  }

  /** The last beat delivered so far, looking at the first n. */
  lemma {:induction false} LastDelivered(log: seq<Delivery>, beats: seq<Beat>, n: nat) returns (i: nat)
    requires 1 <= n <= |beats| && Delivered(log, beats[0].heartbeat)
    ensures i < n && Delivered(log, beats[i].heartbeat)
    ensures forall j | i < j < n :: !Delivered(log, beats[j].heartbeat)
  {
    if Delivered(log, beats[n - 1].heartbeat) {
      i := n - 1;
    } else {
      i := LastDelivered(log, beats, n - 1);
    }
  }

  lemma Outlasts(contact: int, at: int, slack: nat, interval: int, now: int)
    requires contact >= at - slack && interval % 1000 == 0 && 2 * (now - at + slack) < 5 * interval
    ensures contact + interval * 5 / 2 > now
  {
    assert interval * 5 / 2 * 2 == interval * 5;
  }

  /** Until the next beat must have arrived, the last one delivered is worth two and a half intervals. */
  lemma NextBeatDue(log: seq<Delivery>, beats: seq<Beat>, siteId: string, interval: int, slack: nat, now: int, i: nat)
    requires Regular(beats, siteId, interval, slack) && InTime(log, beats, interval, slack, now) && i < |beats|
    requires i < |beats| - 1 ==> !Delivered(log, beats[i + 1].heartbeat)
    requires 2 * (now - beats[|beats| - 1].at + slack) < 5 * interval
    ensures 2 * (now - beats[i].at + slack) < 5 * interval
  {
    if i < |beats| - 1 {
      assert beats[i + 1].at <= beats[i].at + 2 * interval;
    }
  }

  /**
   From the first delivery until two and a half intervals after the last beat, a regular gateway has an unexpired
   heartbeat stored.
   */
  lemma {:induction false} RegularGatewayUnexpired(log: seq<Delivery>, beats: seq<Beat>, siteId: string, interval: int, slack: nat, now: int)
    requires beats != [] && Consistent(log) && Regular(beats, siteId, interval, slack) && InTime(log, beats, interval, slack, now)
    requires Delivered(log, beats[0].heartbeat) && 2 * (now - beats[|beats| - 1].at + slack) < 5 * interval
    ensures Unexpired(After(log).rows, siteId, now)
  {
    var i := LastDelivered(log, beats, |beats|);
    NextBeatDue(log, beats, siteId, interval, slack, now, i);
    var d :| 0 <= d < |log| && log[d].heartbeat == beats[i].heartbeat;
    var k := DeliveredIsStored(log, d);
    assert Storable(log[k].heartbeat) && beats[i].at <= log[k].receivedAt;
    Outlasts(Contact(log[k]), beats[i].at, slack, interval, now);
    assert StoredRow(log[k]).expiresAt > now;
  }

  /**
   Over every delivery log, with repeats, reordering, other sites and other gateways of
   the same interval: a regular gateway keeps its site from ever being listed offline,
   whatever HTTP contact says.
   */
  lemma {:induction false} RegularGatewayNeverOffline(
    log: seq<Delivery>, beats: seq<Beat>, siteId: string, interval: int, slack: nat, now: int, site: Site, t: Thresholds)
    requires beats != [] && Consistent(log) && Regular(beats, siteId, interval, slack) && InTime(log, beats, interval, slack, now)
    requires Delivered(log, beats[0].heartbeat) && 2 * (now - beats[|beats| - 1].at + slack) < 5 * interval
    requires forall i | 0 <= i < |log| && log[i].heartbeat.siteId == siteId :: log[i].heartbeat.interval == interval
    requires site.siteId == siteId && Lists(site, After(log).rows)
    ensures HealthOf(site, now, t) != Offline
  {
    RegularGatewayUnexpired(log, beats, siteId, interval, slack, now);
    CommonIntervalExpiresInOrder(log, siteId, interval);
    NeverHiddenExactly(log, siteId);
  }

  /** Listing sites fills in the status of every item of the page and nothing else. */
  method MarkHealth(items: array<Site>, now: int, t: Thresholds)
    modifies items
    ensures forall i | 0 <= i < items.Length :: items[i] == old(items[i]).(health := HealthOf(old(items[i]), now, t))
  {
    for i := 0 to items.Length
      invariant forall j | 0 <= j < i :: items[j] == old(items[j]).(health := HealthOf(old(items[j]), now, t))
      invariant forall j | i <= j < items.Length :: items[j] == old(items[j])
    {
      items[i] := items[i].(health := HealthOf(items[i], now, t));
    }
  }

  // ---- What is reported and what is written ----

  /** Somebody heard the site over HTTP recently enough. */
  predicate Heard(site: Site, now: int, t: Thresholds) {
    site.lastContactAt.Some? && now <= site.lastContactAt.value + t.offlineAfter
  }

  predicate Beating(site: Site, now: int) {
    site.heartbeatExpiresAt.Some? && now < site.heartbeatExpiresAt.value
  }

  predicate Flowing(site: Site, now: int, t: Thresholds) {
    site.lastEventAt.Some? && now <= site.lastEventAt.value + t.eventStaleAfter && !site.queueGrowing
  }

  /**
   Live needs contact and a flow of fresh events; without either contact or an unexpired heartbeat a site is
   offline; whatever is left is delayed.
   */
  lemma ReportedExactly(site: Site, now: int, t: Thresholds)
    ensures HealthOf(site, now, t) == Live <==> Heard(site, now, t) && Flowing(site, now, t)
    ensures HealthOf(site, now, t) == Offline <==> !Heard(site, now, t) && !Beating(site, now)
  {
  }

  /** Vouched for from the earlier of two clocks, for two and a half intervals. */
  predicate Vouches(row: Row, h: Heartbeat, receivedAt: int) {
    && row.siteId == h.siteId && row.sentAt == h.sentAt && row.interval == h.interval
    && row.contactAt <= h.sentAt && row.contactAt <= receivedAt && (row.contactAt == h.sentAt || row.contactAt == receivedAt)
    && 2 * (row.expiresAt - row.contactAt) <= 5 * h.interval < 2 * (row.expiresAt - row.contactAt) + 2
  }

  /**
   A heartbeat is refused if another one has its key, if a new one does not fit the columns, or if the provider's
   id was used for another key.
   */
  predicate Refused(b: Board, h: Heartbeat, provider: string) {
    || (Key(h) in b.rows && (b.rows[Key(h)].sentAt != h.sentAt || b.rows[Key(h)].interval != h.interval))
    || (Key(h) !in b.rows && !(0 < h.sequence < 0x8000_0000_0000_0000))
    || (Key(h) !in b.rows && !(60_000 <= h.interval <= 86_400_000 && h.interval % 1000 == 0))
    || (provider in b.receipts && b.receipts[provider] != Key(h))
  }

  /** One delivery writes a row for a new key, a receipt for a new provider id, and nothing if it is refused. */
  lemma DeliveryWrites(b: Board, d: Delivery)
    ensures var (b', key) := (Step(b, d), Key(d.heartbeat));
      if Refused(b, d.heartbeat, d.provider) then b' == b
      else
        && (key in b.rows ==> b'.rows == b.rows)
        && (key !in b.rows ==> key in b'.rows && b'.rows == b.rows[key := b'.rows[key]] && Vouches(b'.rows[key], d.heartbeat, d.receivedAt))
        && b'.receipts == b.receipts[d.provider := key]
  {
    var key := Key(d.heartbeat);
    if d.provider in b.receipts && b.receipts[d.provider] == key {
      assert b.receipts[d.provider := key] == b.receipts;
    }
  }
}
