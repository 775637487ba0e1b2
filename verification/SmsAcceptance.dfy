/** Exactly which texts the platform accepts as an SMS of the edge, and exactly which events the edge can print. */
module SmsAcceptance {
  import opened Prelude
  import opened Text
  import opened EdgeModel
  import opened SmsMessages

  // ---- Envelopes ----

  /** The text of these fields, in their order. */
  function TextOf(keys: seq<string>, values: seq<string>): string
    requires |keys| == |values|
  {
    Join(["AMBAGRID"] + PrintedFields(keys, values), '|')
  }

  /** One segment of at least six printable fields, "v" being 1. */
  ghost predicate Enveloped(message: string, keys: seq<string>, values: seq<string>) {
    && Printable(keys, values) && |keys| >= 6
    && message == TextOf(keys, values) && Septets(message) <= 160
    && exists i :: 0 <= i < |keys| && keys[i] == "v" && values[i] == "1"
  }

  lemma FieldWasRead(fields: Fields, part: string) returns (key: string, value: string)
    requires ReadField(fields, part).Ok? && '|' !in part
    ensures part == Field(key, value) && key != "" && '=' !in key && '|' !in key && PrintableValue(value) && key !in fields.values
    ensures ReadField(fields, part) == Ok(Fields(fields.values[key := value], fields.keys + [key]))
  {
    CutGives(part, '=');
    key, value := Cut(part, '=').value.0, Cut(part, '=').value.1;
    assert forall i | 0 <= i < |key| :: key[i] == part[i];
    assert forall i | 0 <= i < |value| :: value[i] == part[|key| + 1 + i];
  }

  /** The parts are the printed fields they read as. */
  ghost predicate WereRead(parts: seq<string>, values: seq<string>) {
    && ReadFields(parts).Ok?
    && var fields := ReadFields(parts).value;
       Printable(fields.keys, values) && parts == PrintedFields(fields.keys, values) && Records(fields, fields.keys, values)
  }

  lemma OneMoreWasRead(parts: seq<string>, values: seq<string>, last: string) returns (more: seq<string>)
    requires WereRead(parts, values) && ReadFields(parts + [last]).Ok? && '|' !in last
    ensures WereRead(parts + [last], more)
  {
    var before := ReadFields(parts).value;
    ReadFieldsLast(parts, last);
    var key, value := FieldWasRead(before, last);
    more := values + [value];
    PrintedAppend(before.keys, values, key, value);
    OneMoreRecorded(before, values, key, value);
    OneMorePrintable(before.keys, values, key, value);
  }

  lemma {:induction false} FieldsWereRead(parts: seq<string>) returns (values: seq<string>)
    requires ReadFields(parts).Ok? && forall i | 0 <= i < |parts| :: '|' !in parts[i]
    ensures WereRead(parts, values)
  {
    if parts == [] {
      values := [];
    } else {
      var n := |parts| - 1;
      DropLast(parts);
      values := FieldsWereRead(parts[..n]);
      values := OneMoreWasRead(parts[..n], values, parts[n]);
    }
  }

  lemma OneMoreRecorded(fields: Fields, values: seq<string>, key: string, value: string)
    requires |values| == |fields.keys| && Records(fields, fields.keys, values) && key !in fields.values
    ensures key !in fields.keys
    ensures Records(Fields(fields.values[key := value], fields.keys + [key]), fields.keys + [key], values + [value])
  {
  }

  lemma OneMorePrintable(keys: seq<string>, values: seq<string>, key: string, value: string)
    requires Printable(keys, values) && key !in keys
    requires key != "" && '=' !in key && '|' !in key && PrintableValue(value)
    ensures Printable(keys + [key], values + [value])
  {
    forall i | 0 <= i < |values| + 1 ensures PrintableValue((values + [value])[i]) {
      if i < |values| {
        assert PrintableValue(values[i]);
      }
    }
  }

  /** A message that splits is the text of the fields it splits into. */
  lemma SplitIsEnveloped(message: string) returns (values: seq<string>)
    requires SplitMessage(message).Ok?
    ensures var fields := SplitMessage(message).value;
      Enveloped(message, fields.keys, values) && Records(fields, fields.keys, values)
  {
    var parts := Split(message, '|');
    JoinSplit(message, '|');
    values := FieldsWereRead(parts[1..]);
    var fields := SplitMessage(message).value;
    assert parts == ["AMBAGRID"] + PrintedFields(fields.keys, values);
    HasVersion(fields, values);
  }

  lemma HasVersion(fields: Fields, values: seq<string>)
    requires |values| == |fields.keys| && Records(fields, fields.keys, values) && fields.Get("v") == "1"
    ensures exists i :: 0 <= i < |fields.keys| && fields.keys[i] == "v" && values[i] == "1"
  {
    assert "v" in fields.keys;
    var i :| 0 <= i < |fields.keys| && fields.keys[i] == "v";
    Recorded(fields, fields.keys, values, i);
  }

  /** And the text of printable fields in an envelope splits into them. */
  lemma EnvelopedSplits(message: string, keys: seq<string>, values: seq<string>)
    requires Enveloped(message, keys, values)
    ensures SplitMessage(message).Ok? && Records(SplitMessage(message).value, keys, values)
  {
    PrintedPartsSplit(keys, values);
    ReadPrintedFields(keys, values);
    SplitReads(message, PrintedFields(keys, values));
    var i :| 0 <= i < |keys| && keys[i] == "v" && values[i] == "1";
    Recorded(ReadFields(PrintedFields(keys, values)).value, keys, values, i);
  }

  // ---- Key orders ----

  function OrderOf(code: Code): seq<string> {
    if code == BatteryOverheat then ["v", "site", "asset", "seq", "code", "temp", "ts"] else ["v", "site", "asset", "seq", "code", "ts"]
  }

  function BeatOrder(): seq<string> {
    ["v", "kind", "site", "gw", "seq", "int", "ts"]
  }

  /** The pieces of all keys, cut at commas. */
  function Pieces(keys: seq<string>): seq<string> {
    if keys == [] then [] else Split(keys[0], ',') + Pieces(keys[1..])
  }

  lemma {:induction false} SplitTwo(head: string, sep: char, tail: string)
    ensures Split(head + [sep] + tail, sep) == Split(head, sep) + Split(tail, sep)
  {
    var s := head + [sep] + tail;
    if head == "" {
      assert s[1..] == tail;
    } else {
      assert s[1..] == head[1..] + [sep] + tail;
      SplitTwo(head[1..], sep, tail);
    }
  }

  lemma {:induction false} SplitJoined(keys: seq<string>)
    requires keys != []
    ensures Split(Join(keys, ','), ',') == Pieces(keys)
  {
    if |keys| == 1 {
      assert Pieces(keys[1..]) == [];
      assert Split(keys[0], ',') + [] == Split(keys[0], ',');
    } else {
      SplitTwo(keys[0], ',', Join(keys[1..], ','));
      SplitJoined(keys[1..]);
    }
  }

  lemma SplitWithout(key: string)
    ensures |Split(key, ',')| == 1 ==> Split(key, ',') == [key]
  {
    JoinSplit(key, ',');
    if |Split(key, ',')| == 1 {
      assert Split(key, ',') == [Split(key, ',')[0]];
    }
  }

  /** At least one piece each, and no more only if no key has a comma. */
  lemma {:induction false} PiecesCount(keys: seq<string>)
    ensures |Pieces(keys)| >= |keys|
    ensures |Pieces(keys)| == |keys| ==> Pieces(keys) == keys
  {
    if keys != [] {
      PiecesCount(keys[1..]);
      SplitWithout(keys[0]);
      assert keys == [keys[0]] + keys[1..];
    }
  }

  /** Keys that join to the same text as these without commas are these, if there are at least as many. */
  lemma JoinedAlike(keys: seq<string>, order: seq<string>)
    requires keys != [] && order != [] && Join(keys, ',') == Join(order, ',')
    requires forall k | k in order :: ',' !in k
    requires |keys| >= |order|
    ensures keys == order
  {
    SplitJoined(keys);
    SplitJoin(order, ',');
    PiecesCount(keys);
  }

  function Names(keys: seq<string>): set<string> {
    set k | k in keys
  }

  lemma {:induction false} NamesBound(keys: seq<string>)
    ensures |Names(keys)| <= |keys|
  {
    if keys == [] {
      assert Names(keys) == {};
    } else {
      NamesBound(keys[1..]);
      assert Names(keys) == Names(keys[1..]) + {keys[0]};
    }
  }

  lemma {:induction false} NamesOfDistinct(keys: seq<string>)
    requires forall i, j | 0 <= i < j < |keys| :: keys[i] != keys[j]
    ensures |Names(keys)| == |keys|
  {
    if keys == [] {
      assert Names(keys) == {};
    } else {
      NamesOfDistinct(keys[1..]);
      assert Names(keys) == Names(keys[1..]) + {keys[0]};
      assert keys[0] !in keys[1..];
    }
  }

  /** Keys that have all of these are at least as many. */
  lemma AtLeastAsMany(keys: seq<string>, order: seq<string>)
    requires forall i, j | 0 <= i < j < |order| :: order[i] != order[j]
    requires forall i | 0 <= i < |order| :: order[i] in keys
    ensures |keys| >= |order|
  {
    NamesBound(keys);
    NamesOfDistinct(order);
    assert Names(order) <= Names(keys);
    var rest := Names(keys) - Names(order);
    assert Names(keys) == Names(order) + rest;
  }

  lemma OrdersAreComplete()
    ensures CRITICAL_KEYS == OrderOf(TamperDetected) && OVERHEAT_KEYS == OrderOf(BatteryOverheat) && HEARTBEAT_KEYS == BeatOrder()
    ensures forall code: Code, k | k in OrderOf(code) :: ',' !in k && k in OrderOf(BatteryOverheat)
    ensures forall k | k in BeatOrder() :: ',' !in k
  {
  }

  // ---- Critical messages ----

  function NameOf(code: Code): string {
    match code
    case BatteryOverheat => "BATTERY_OVERHEAT"
    case InverterFailure => "INVERTER_FAILURE"
    case TamperDetected => "TAMPER_DETECTED"
    case SiteOutage => "SITE_OUTAGE"
  }

  lemma CodeReadExactly(text: string, code: Code)
    ensures ParseCode(text) == Some(code) <==> text == NameOf(code)
  {
    CodeParses(code);
  }

  predicate Token(s: string) {
    s != "" && forall i | 0 <= i < |s| :: 'a' <= s[i] <= 'z' || 'A' <= s[i] <= 'Z' || '0' <= s[i] <= '9' || s[i] == '-' || s[i] == '_'
  }

  /** The values of a critical message, in its key order, are those of this event. */
  predicate TellsEvent(values: seq<string>, e: ReceivedEvent) {
    && |values| == |OrderOf(e.code)| && values[0] == "1"
    && values[1] == e.siteId && Token(e.siteId) && values[2] == e.assetId && Token(e.assetId)
    && ParseUint64(values[3]) == Some(e.sequence) && e.sequence > 0
    && values[4] == NameOf(e.code) && (e.code == SiteOutage <==> e.assetId == "site")
    && ParseInt64(values[|values| - 1]) == Some(e.occurredAtSeconds) && e.occurredAtSeconds > 0
    && (e.temperature.Some? <==> e.code == BatteryOverheat)
    && (e.code == BatteryOverheat ==> ParseDecimal(values[5]) == e.temperature)
  }

  lemma CriticalKeysJoin(fields: Fields, e: ReceivedEvent)
    requires ParseCritical(fields) == Ok(e)
    ensures Join(fields.keys, ',') == Join(KeysFor(e.code), ',')
    ensures forall k | k in fields.values :: k in OVERHEAT_KEYS
  {
  }

  lemma KeysForIsOrder(code: Code)
    ensures KeysFor(code) == OrderOf(code)
    ensures forall k | k in OVERHEAT_KEYS :: ',' !in k
    ensures forall k | k in OrderOf(code) :: ',' !in k
  {
  }

  lemma CriticalKeysAre(fields: Fields, values: seq<string>, e: ReceivedEvent)
    requires |values| == |fields.keys| && fields.keys != [] && Records(fields, fields.keys, values) && ParseCritical(fields) == Ok(e)
    ensures fields.keys == OrderOf(e.code)
  {
    CriticalKeysJoin(fields, e);
    KeysForIsOrder(e.code);
    RecordedKeysPlain(fields, values);
    SplitJoin(fields.keys, ',');
    SplitJoin(OrderOf(e.code), ',');
  }

  lemma RecordedKeysPlain(fields: Fields, values: seq<string>)
    requires |values| == |fields.keys| && Records(fields, fields.keys, values)
    requires forall k | k in fields.values :: k in OVERHEAT_KEYS
    ensures forall k | k in fields.keys :: ',' !in k
  {
    KeysForIsOrder(BatteryOverheat);
    forall k | k in fields.keys
      ensures k in fields.values
    {
      var i :| 0 <= i < |fields.keys| && fields.keys[i] == k;
      Recorded(fields, fields.keys, values, i);
    }
  }

  /** The fields, looked up by name. */
  lemma CriticalFieldsAre(fields: Fields, values: seq<string>, code: Code)
    requires |values| == |OrderOf(code)| && Records(fields, OrderOf(code), values)
    ensures fields.Get("site") == values[1] && fields.Get("asset") == values[2] && fields.Get("seq") == values[3]
    ensures fields.Get("code") == values[4] && fields.Get("ts") == values[|values| - 1]
    ensures fields.Get("temp") == if code == BatteryOverheat then values[5] else ""
  {
    var keys := OrderOf(code);
    assert keys[0] == "v" && keys[1] == "site" && keys[2] == "asset" && keys[3] == "seq" && keys[4] == "code" && keys[|keys| - 1] == "ts";
    Recorded(fields, keys, values, 1);
    Recorded(fields, keys, values, 2);
    Recorded(fields, keys, values, 3);
    Recorded(fields, keys, values, 4);
    Recorded(fields, keys, values, 5);
    Recorded(fields, keys, values, |keys| - 1);
  }

  lemma CriticalNamesAre(fields: Fields, values: seq<string>, code: Code)
    requires |values| == |OrderOf(code)| && Records(fields, OrderOf(code), values)
    ensures "kind" !in fields.values && forall k | k in fields.values :: k in OVERHEAT_KEYS
  {
    OrdersAreComplete();
  }

  lemma CheckedExactly(keys: seq<string>, site: string, asset: string, heat: string, sequence: string, at: string, name: string, e: ReceivedEvent)
    requires keys == OrderOf(e.code) && (heat == "" <==> e.code != BatteryOverheat)
    ensures CheckCritical(keys, site, asset, heat != "", ParseUint64(sequence), ParseInt64(at), ParseCode(name),
                          if heat == "" then None else ParseDecimal(heat)) == Ok(e) <==>
      && site == e.siteId && Token(site) && asset == e.assetId && Token(asset)
      && ParseUint64(sequence) == Some(e.sequence) && e.sequence > 0
      && name == NameOf(e.code) && (e.code == SiteOutage <==> asset == "site")
      && ParseInt64(at) == Some(e.occurredAtSeconds) && e.occurredAtSeconds > 0
      && (e.temperature.Some? <==> e.code == BatteryOverheat) && (heat != "" ==> ParseDecimal(heat) == e.temperature)
  {
    CodeReadExactly(name, e.code);
    OrdersAreComplete();
    assert KeysFor(e.code) == OrderOf(e.code);
  }

  /** With these keys, the fields are an event's exactly if their values tell it. */
  lemma CriticalReadExactly(fields: Fields, values: seq<string>, e: ReceivedEvent)
    requires fields.keys == OrderOf(e.code) && |values| == |fields.keys| && Records(fields, fields.keys, values)
    requires values[0] == "1" && forall i | 0 <= i < |values| :: values[i] != ""
    ensures ParseCritical(fields) == Ok(e) <==> TellsEvent(values, e)
  {
    CriticalFieldsAre(fields, values, e.code);
    CriticalNamesAre(fields, values, e.code);
    CheckedExactly(fields.keys, values[1], values[2], fields.Get("temp"), values[3], values[|values| - 1], values[4], e);
  }

  /**
   A message is accepted as this event exactly if it is the one-segment text of its fields in the one order its
   code demands.
   */
  lemma CriticalAcceptedExactly(message: string, e: ReceivedEvent)
    ensures ParseMessage(message) == Ok(Critical(e)) <==>
      exists values :: TellsEvent(values, e) && Enveloped(message, OrderOf(e.code), values)
  {
    if ParseMessage(message) == Ok(Critical(e)) {
      var values := CriticalIsText(message, e);
    }
    if values :| TellsEvent(values, e) && Enveloped(message, OrderOf(e.code), values) {
      TextIsCritical(message, e, values);
    }
  }

  lemma CriticalIsText(message: string, e: ReceivedEvent) returns (values: seq<string>)
    requires ParseMessage(message) == Ok(Critical(e))
    ensures TellsEvent(values, e) && Enveloped(message, OrderOf(e.code), values)
  {
    values := SplitIsEnveloped(message);
    var fields := SplitMessage(message).value;
    CriticalKeysAre(fields, values, e);
    EnvelopeIsFull(message, fields.keys, values);
    CriticalReadExactly(fields, values, e);
  }

  lemma TextIsCritical(message: string, e: ReceivedEvent, values: seq<string>)
    requires TellsEvent(values, e) && Enveloped(message, OrderOf(e.code), values)
    ensures ParseMessage(message) == Ok(Critical(e))
  {
    EnvelopedSplits(message, OrderOf(e.code), values);
    EnvelopeIsFull(message, OrderOf(e.code), values);
    var fields := SplitMessage(message).value;
    CriticalNamesAre(fields, values, e.code);
    CriticalReadExactly(fields, values, e);
  }

  lemma EnvelopeIsFull(message: string, keys: seq<string>, values: seq<string>)
    requires Enveloped(message, keys, values)
    ensures forall i | 0 <= i < |values| :: values[i] != ""
    ensures keys[0] == "v" ==> values[0] == "1"
  {
    forall i | 0 <= i < |values| ensures values[i] != "" {
      assert PrintableValue(values[i]);
    }
  }

  // ---- Heartbeats ----

  /** A text of seconds that 64-bit arithmetic takes for this many nanoseconds, from one minute to one day. */
  predicate TellsInterval(text: string, interval: int) {
    && ParseInt64(text).Some? && (ParseInt64(text).value * 1_000_000_000 - interval) % UINT64_LIMIT == 0
    && 60_000_000_000 <= interval <= 86_400_000_000_000
  }

  /** The values of a heartbeat, in its key order, are those of this one. */
  predicate TellsBeat(values: seq<string>, h: ReceivedHeartbeat) {
    && |values| == 7 && values[0] == "1" && values[1] == "HB"
    && values[2] == h.siteId && Token(h.siteId) && values[3] == h.gatewayId && Token(h.gatewayId)
    && ParseUint64(values[4]) == Some(h.sequence) && h.sequence > 0 && TellsInterval(values[5], h.interval)
    && ParseInt64(values[6]) == Some(h.sentAtSeconds) && h.sentAtSeconds > 0
  }

  lemma WrappedExactly(n: int, wrapped: int)
    requires -INT64_LIMIT <= wrapped < INT64_LIMIT
    ensures WrapInt64(n) == wrapped <==> (n - wrapped) % UINT64_LIMIT == 0
  {
  }

  lemma IntervalReadExactly(text: string, interval: int)
    ensures TellsInterval(text, interval) <==>
      && 60_000_000_000 <= interval <= 86_400_000_000_000
      && interval == if ParseInt64(text).Some? then WrapInt64(ParseInt64(text).value * NANOS_PER_SECOND) else 0
  {
    if ParseInt64(text).Some? && 60_000_000_000 <= interval <= 86_400_000_000_000 {
      WrappedExactly(ParseInt64(text).value * 1_000_000_000, interval);
    }
  }

  lemma BeatFieldsAre(fields: Fields, values: seq<string>)
    requires |values| == 7 && Records(fields, BeatOrder(), values)
    ensures fields.Get("kind") == values[1] && fields.Get("site") == values[2] && fields.Get("gw") == values[3]
    ensures fields.Get("seq") == values[4] && fields.Get("int") == values[5] && fields.Get("ts") == values[6] && "kind" in fields.values
  {
    var keys := BeatOrder();
    assert keys[1] == "kind" && keys[2] == "site" && keys[3] == "gw" && keys[4] == "seq" && keys[5] == "int" && keys[6] == "ts";
    Recorded(fields, keys, values, 1);
    Recorded(fields, keys, values, 2);
    Recorded(fields, keys, values, 3);
    Recorded(fields, keys, values, 4);
    Recorded(fields, keys, values, 5);
    Recorded(fields, keys, values, 6);
  }

  lemma CheckedBeatExactly(fields: Fields, sequence: Option<Uint64>, epoch: Option<int>, interval: int, h: ReceivedHeartbeat)
    requires fields.keys == BeatOrder()
    ensures CheckHeartbeat(fields, sequence, epoch, interval) == Ok(h) <==>
      && fields.Get("kind") == "HB" && fields.Get("site") == h.siteId && fields.Get("gw") == h.gatewayId
      && Token(h.siteId) && Token(h.gatewayId) && sequence == Some(h.sequence) && h.sequence > 0
      && epoch == Some(h.sentAtSeconds) && h.sentAtSeconds > 0
      && interval == h.interval && 60_000_000_000 <= h.interval <= 86_400_000_000_000
  {
    OrdersAreComplete();
  }

  lemma BeatReadExactly(fields: Fields, values: seq<string>, h: ReceivedHeartbeat)
    requires fields.keys == BeatOrder() && |values| == |fields.keys| && Records(fields, fields.keys, values) && values[0] == "1"
    ensures ParseHeartbeat(fields) == Ok(h) <==> TellsBeat(values, h)
  {
    BeatFieldsAre(fields, values);
    var seconds := ParseInt64(values[5]);
    var interval := if seconds.Some? then WrapInt64(seconds.value * NANOS_PER_SECOND) else 0;
    CheckedBeatExactly(fields, ParseUint64(values[4]), ParseInt64(values[6]), interval, h);
    IntervalReadExactly(values[5], h.interval);
    assert ParseHeartbeat(fields) == CheckHeartbeat(fields, ParseUint64(values[4]), ParseInt64(values[6]), interval);
  }

  lemma BeatHasAll(fields: Fields, h: ReceivedHeartbeat)
    requires fields.Get("v") == "1" && ParseHeartbeat(fields) == Ok(h)
    ensures forall i | 0 <= i < 7 :: BeatOrder()[i] in fields.values
    ensures Join(fields.keys, ',') == Join(HEARTBEAT_KEYS, ',')
  {
    assert fields.Get("kind") != "" && fields.Get("site") != "" && fields.Get("gw") != "" && fields.Get("seq") != ""
        && fields.Get("int") != "" && fields.Get("ts") != "";
  }

  lemma BeatOrderIs()
    ensures HEARTBEAT_KEYS == BeatOrder()
    ensures forall k | k in BeatOrder() :: ',' !in k
    ensures forall i, j | 0 <= i < j < |BeatOrder()| :: BeatOrder()[i] != BeatOrder()[j]
  {
  }

  lemma BeatKeysFrom(keys: seq<string>)
    requires keys != [] && Join(keys, ',') == Join(BeatOrder(), ',') && forall i | 0 <= i < 7 :: BeatOrder()[i] in keys
    ensures keys == BeatOrder()
  {
    BeatOrderIs();
    AtLeastAsMany(keys, BeatOrder());
    JoinedAlike(keys, BeatOrder());
  }

  lemma BeatKeysAre(fields: Fields, values: seq<string>, h: ReceivedHeartbeat)
    requires |values| == |fields.keys| && Records(fields, fields.keys, values) && fields.Get("v") == "1" && ParseHeartbeat(fields) == Ok(h)
    ensures fields.keys == BeatOrder()
  {
    BeatHasAll(fields, h);
    BeatOrderIs();
    BeatKeysFrom(fields.keys);
  }

  /** And as this heartbeat exactly if it is the one-segment text of a heartbeat's fields in their order. */
  lemma HeartbeatAcceptedExactly(message: string, h: ReceivedHeartbeat)
    ensures ParseMessage(message) == Ok(Liveness(h)) <==> exists values :: TellsBeat(values, h) && Enveloped(message, BeatOrder(), values)
  {
    if ParseMessage(message) == Ok(Liveness(h)) {
      var values := BeatIsText(message, h);
    }
    if values :| TellsBeat(values, h) && Enveloped(message, BeatOrder(), values) {
      TextIsBeat(message, h, values);
    }
  }

  lemma BeatSplits(message: string, h: ReceivedHeartbeat)
    requires ParseMessage(message) == Ok(Liveness(h))
    ensures SplitMessage(message).Ok?
    ensures SplitMessage(message).value.Get("v") == "1" && ParseHeartbeat(SplitMessage(message).value) == Ok(h)
  {
  }

  lemma BeatIsText(message: string, h: ReceivedHeartbeat) returns (values: seq<string>)
    requires ParseMessage(message) == Ok(Liveness(h))
    ensures TellsBeat(values, h) && Enveloped(message, BeatOrder(), values)
  {
    BeatSplits(message, h);
    values := SplitIsEnveloped(message);
    TellsIfSplit(message, SplitMessage(message).value, values, h);
  }

  lemma TellsIfSplit(message: string, fields: Fields, values: seq<string>, h: ReceivedHeartbeat)
    requires Enveloped(message, fields.keys, values) && Records(fields, fields.keys, values)
    requires fields.Get("v") == "1" && ParseHeartbeat(fields) == Ok(h)
    ensures TellsBeat(values, h) && fields.keys == BeatOrder()
  {
    BeatKeysAre(fields, values, h);
    EnvelopeIsFull(message, fields.keys, values);
    BeatReadExactly(fields, values, h);
  }

  lemma TextIsBeat(message: string, h: ReceivedHeartbeat, values: seq<string>)
    requires TellsBeat(values, h) && Enveloped(message, BeatOrder(), values)
    ensures ParseMessage(message) == Ok(Liveness(h))
  {
    EnvelopedSplits(message, BeatOrder(), values);
    EnvelopeIsFull(message, BeatOrder(), values);
    var fields := SplitMessage(message).value;
    BeatFieldsAre(fields, values);
    BeatReadExactly(fields, values, h);
  }

  // ---- What the edge can print ----

  /**
   Identities of plain characters, a number and a date, a temperature exactly for an overheating battery, the site
   exactly for a site outage.
   */
  predicate Tellable(e: FallbackEvent) {
    && Token(e.siteId) && Token(e.assetId) && e.sequence > 0 && e.occurredAt.Some?
    && (e.temperature.Some? <==> e.code == BatteryOverheat) && (e.code == SiteOutage <==> e.assetId == "site")
  }

  function PrintedValues(e: FallbackEvent): (values: seq<string>)
    requires Tellable(e)
    ensures |values| == |OrderOf(e.code)|
  {
    var head := ["1", e.siteId, e.assetId, PrintNat(e.sequence), NameOf(e.code)];
    var at := PrintInt(e.occurredAt.value / 1000);
    if e.code == BatteryOverheat then head + [PrintTemperature(e.temperature.value), at] else head + [at]
  }

  lemma PrintedParts(e: FallbackEvent)
    requires Tellable(e)
    ensures Join(CriticalParts(e), '|') == TextOf(OrderOf(e.code), PrintedValues(e))
  {
    CriticalPartsAreFields(e);
    KeysForIsOrder(e.code);
    assert CriticalKeys(e) == KeysFor(e.code);
    assert CriticalValues(e) == PrintedValues(e);
  }

  lemma NoComplaintExactly(e: FallbackEvent)
    ensures Complaint(e).None? <==> Tellable(e)
  {
  }

  /**
   An incident can be sent exactly if it can be told and its text, the fields in the order its code demands, fits
   in one segment.
   */
  lemma FormattedExactly(e: FallbackEvent, text: string)
    ensures Format(e) == Ok(text) <==> Tellable(e) && text == TextOf(OrderOf(e.code), PrintedValues(e)) && Septets(text) <= 160
  {
    NoComplaintExactly(e);
    if Tellable(e) {
      PrintedParts(e);
    }
  }

  /** A whole number of seconds from one minute to one day. */
  predicate Beating(h: Heartbeat) {
    && Token(h.siteId) && Token(h.gatewayId) && h.sequence > 0 && h.sentAt.Some?
    && h.interval % 1_000_000_000 == 0 && 60_000_000_000 <= h.interval <= 86_400_000_000_000
  }

  lemma BeatFormattedExactly(h: Heartbeat, text: string)
    ensures FormatHeartbeat(h) == Ok(text) <==>
      && Beating(h)
      && text == TextOf(BeatOrder(), ["1", "HB", h.siteId, h.gatewayId, PrintNat(h.sequence), PrintInt(h.interval / 1_000_000_000), PrintInt(h.sentAt.value / 1000)])
      && Septets(text) <= 160
  {
    if Beating(h) {
      OrdersAreComplete();
      HeartbeatPartsAreFields(h);
    }
  }

  // ---- Lengths, numbers and keys ----

  /** One septet a character and one more for each of the nine that need an escape, wherever they stand. */
  lemma {:induction false} SeptetsCounted(a: string, c: char, b: string)
    ensures Septets("") == 0
    ensures Septets(a + [c] + b) == Septets(a) + Septets(b)
                                    + (if c == '^' || c == '{' || c == '}' || c == '\\' || c == '[' || c == '~' || c == ']' || c == '|'
                                          || c == '\U{20AC}' then 2 else 1)
    decreases b
  {
    if b == "" {
      assert (a + [c] + b)[..|a|] == a;
      assert a + [c] + b == a + [c];
    } else {
      var n := |b| - 1;
      SeptetsCounted(a, c, b[..n]);
      assert (a + [c] + b)[..|a| + 1 + n] == a + [c] + b[..n];
    }
  }

  /** A text of digits and nothing else. */
  predicate Numeral(s: string) {
    s != "" && forall i | 0 <= i < |s| :: '0' <= s[i] <= '9'
  }

  lemma UnsignedReadExactly(s: string, n: Uint64)
    ensures ParseUint64(s) == Some(n) <==> Numeral(s) && NumeralValue(s) == n
  {
  }

  /** A numeral with at most one sign before it, in the range of 64 bits. */
  lemma SignedReadExactly(s: string, n: int)
    ensures ParseInt64(s) == Some(n) <==>
      && -INT64_LIMIT <= n < INT64_LIMIT
      && ((Numeral(s) && NumeralValue(s) == n)
          || (s != "" && s[0] == '+' && Numeral(s[1..]) && NumeralValue(s[1..]) == n)
          || (s != "" && s[0] == '-' && Numeral(s[1..]) && NumeralValue(s[1..]) == -n))
  {
    if s != "" && (s[0] == '+' || s[0] == '-') {
      assert !IsDigit(s[0]);
    }
  }

  /** Digits, or digits around one point; at least one digit in all. */
  predicate DecimalText(s: string, whole: string, fraction: string) {
    && Numeral(whole + fraction)
    && ((s == whole && fraction == "") || s == whole + ['.'] + fraction)
  }

  lemma UnsignedDecimalReadExactly(s: string, x: real)
    ensures ParseUnsignedDecimal(s) == Some(x) <==>
      exists whole, fraction :: DecimalText(s, whole, fraction) && x == NumeralValue(whole + fraction) as real / PowerOfTen(|fraction|) as real
  {
    if ParseUnsignedDecimal(s) == Some(x) {
      var (whole, fraction) := match Cut(s, '.') case None => (s, "") case Some(p) => p;
      if Cut(s, '.').Some? {
        CutGives(s, '.');
      }
      assert DecimalText(s, whole, fraction);
    }
    if whole, fraction :| DecimalText(s, whole, fraction) && x == NumeralValue(whole + fraction) as real / PowerOfTen(|fraction|) as real {
      assert '.' !in whole by {
        assert forall i | 0 <= i < |whole| :: (whole + fraction)[i] == whole[i];
      }
      if s == whole && fraction == "" {
        NoCut(s, '.');
        assert whole + "" == s;
      } else {
        CutAtFirst(whole, '.', fraction);
      }
    }
  }

  lemma {:induction false} NoCut(s: string, c: char)
    requires c !in s
    ensures Cut(s, c).None?
  {
    if s != "" {
      NoCut(s[1..], c);
    }
  }

  /** A temperature is a decimal with at most one sign before it. */
  lemma DecimalReadExactly(s: string, x: real)
    ensures ParseDecimal(s) == Some(x) <==>
      || (s != "" && s[0] == '-' && ParseUnsignedDecimal(s[1..]) == Some(-x))
      || (s != "" && s[0] == '+' && ParseUnsignedDecimal(s[1..]) == Some(x))
      || ParseUnsignedDecimal(s) == Some(x)
  {
    if ParseUnsignedDecimal(s) == Some(x) {
      UnsignedDecimalReadExactly(s, x);
      var whole, fraction :| DecimalText(s, whole, fraction) && x == NumeralValue(whole + fraction) as real / PowerOfTen(|fraction|) as real;
      assert s[0] == '.' || s[0] == (whole + fraction)[0];
    }
  }

  /** Printed to the nearest tenth of its size; halfway between two, to the even one. */
  lemma TenthsExactly(t: real, n: nat)
    ensures var size := if t < 0.0 then -t else t;
      Tenths(t) == n <==>
        n as real - 0.5 <= size * 10.0 <= n as real + 0.5 && ((size * 10.0 == n as real - 0.5 || size * 10.0 == n as real + 0.5) ==> n % 2 == 0)
  {
    var x := (if t < 0.0 then -t else t) * 10.0;
    var whole := x.Floor;
    assert whole as real <= x < whole as real + 1.0;
    if n as real - 0.5 <= x <= n as real + 0.5 {
      assert whole - 1 <= n <= whole + 1;
    }
  }

  /** A printed temperature has a sign only if it is negative, and exactly one digit after its point. */
  lemma PrintedTemperatureExactly(t: real)
    ensures var n := Tenths(t);
      && PrintTemperature(t) == (if t < 0.0 then "-" else "") + PrintNat(n / 10) + "." + [PrintTemperature(t)[|PrintTemperature(t)| - 1]]
      && NumeralValue([PrintTemperature(t)[|PrintTemperature(t)| - 1]]) == n % 10
  {
    var n := Tenths(t);
    var last := PrintTemperature(t)[|PrintTemperature(t)| - 1];
    assert last == DigitChar(n % 10);
    assert [last][..0] == "" && NumeralValue("") == 0;
  }

  /** What the engine takes for the key of a record: the edge's prefix, a site, and after the last colon a positive number. */
  predicate NamesRecord(raw: string, siteId: string, sequence: int, digits: string) {
    raw == "edge:" + siteId + ":" + digits && siteId != "" && ':' !in digits && ParseInt64(digits) == Some(sequence) && sequence > 0
  }

  lemma ReadKeyNames(raw: string, siteId: string, sequence: int) returns (digits: string)
    requires ParseEventKey(raw) == Ok((siteId, sequence))
    ensures NamesRecord(raw, siteId, sequence, digits)
  {
    var rest := raw[5..];
    CutLastGives(rest, ':');
    digits := CutLast(rest, ':').value.1;
    assert raw == "edge:" + rest;
    assert rest == siteId + [':'] + digits;
    assert raw == "edge:" + siteId + ":" + digits;
  }

  lemma NamedKeyReads(raw: string, siteId: string, sequence: int, digits: string)
    requires NamesRecord(raw, siteId, sequence, digits)
    ensures ParseEventKey(raw) == Ok((siteId, sequence))
  {
    assert raw == "edge:" + (siteId + [':'] + digits);
    assert raw[5..] == siteId + [':'] + digits;
    CutAtLast(siteId, ':', digits);
  }

  lemma KeyReadExactly(raw: string, siteId: string, sequence: int)
    ensures ParseEventKey(raw) == Ok((siteId, sequence)) <==> exists digits :: NamesRecord(raw, siteId, sequence, digits)
  {
    if ParseEventKey(raw) == Ok((siteId, sequence)) {
      var digits := ReadKeyNames(raw, siteId, sequence);
    }
    if digits :| NamesRecord(raw, siteId, sequence, digits) {
      NamedKeyReads(raw, siteId, sequence, digits);
    }
  }
}
