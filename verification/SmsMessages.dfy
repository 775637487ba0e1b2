/**
 The one-segment SMS the edge prints and the platform parses, and the event key
 that both services print and the engine parses back.
 */
module SmsMessages {
  import opened Prelude
  import opened Text
  import opened EdgeModel

  const MAX_SEPTETS := 160
  const NANOS_PER_SECOND := 1_000_000_000
  const MIN_HEARTBEAT_INTERVAL := 60 * NANOS_PER_SECOND
  const MAX_HEARTBEAT_INTERVAL := 86400 * NANOS_PER_SECOND

  type Millis = t: int | -INT64_LIMIT <= t < INT64_LIMIT

  // ---- GSM 7-bit length (section 6.2.1 of 3GPP TS 23.038) ----

  const GSM7_EXTENSION := "^{}\\[~]|\U{20AC}"

  function Septets(s: string): nat {
    if s == "" then 0 else Septets(s[..|s| - 1]) + (if s[|s| - 1] in GSM7_EXTENSION then 2 else 1)
  }

  method GsmSeptets(s: string) returns (count: nat)
    ensures count == Septets(s)
  {
    count := 0;
    for i := 0 to |s|
      invariant count == Septets(s[..i])
    {
      assert s[..i + 1][..i] == s[..i];
      count := count + 1;
      if s[i] in GSM7_EXTENSION {
        count := count + 1;
      }
    }
    assert s[..|s|] == s;
  }

  // ---- Tokens and codes ----

  predicate TokenChar(c: char) {
    'a' <= c <= 'z' || 'A' <= c <= 'Z' || '0' <= c <= '9' || c == '-' || c == '_'
  }

  predicate ValidToken(s: string) {
    s != "" && forall i | 0 <= i < |s| :: TokenChar(s[i])
  }

  function CodeName(code: Code): string {
    match code
    case BatteryOverheat => "BATTERY_OVERHEAT"
    case InverterFailure => "INVERTER_FAILURE"
    case TamperDetected => "TAMPER_DETECTED"
    case SiteOutage => "SITE_OUTAGE"
  }

  function ParseCode(s: string): Option<Code> {
    if s == "BATTERY_OVERHEAT" then Some(BatteryOverheat)
    else if s == "INVERTER_FAILURE" then Some(InverterFailure)
    else if s == "TAMPER_DETECTED" then Some(TamperDetected)
    else if s == "SITE_OUTAGE" then Some(SiteOutage)
    else None
  }

  // ---- Temperatures to one decimal ----

  function RoundHalfEven(x: real): nat
    requires x >= 0.0
  {
    var whole := x.Floor;
    var rest := x - whole as real;
    if rest < 0.5 || (rest == 0.5 && whole % 2 == 0) then whole else whole + 1
  }

  function Magnitude(t: real): (m: real)
    ensures m >= 0.0
  {
    if t < 0.0 then -t else t
  }

  function Tenths(t: real): nat {
    RoundHalfEven(Magnitude(t) * 10.0)
  }

  function Rounded(t: real): real {
    var r := Tenths(t) as real / 10.0;
    if t < 0.0 then -r else r
  }

  function PowerOfTen(n: nat): nat
    ensures PowerOfTen(n) > 0
  {
    if n == 0 then 1 else 10 * PowerOfTen(n - 1)
  }

  /** Digits with at most one point. */
  function ParseUnsignedDecimal(s: string): Option<real> {
    var (whole, fraction) := match Cut(s, '.') case None => (s, "") case Some(p) => p;
    if !Digits(whole + fraction) then None
    else Some(NumeralValue(whole + fraction) as real / PowerOfTen(|fraction|) as real)
  }

  /** Plain decimal numerals with an optional sign. */
  function ParseDecimal(s: string): Option<real> {
    if s != "" && s[0] == '-' then
      match ParseUnsignedDecimal(s[1..]) case None => None case Some(m) => Some(-m)
    else if s != "" && s[0] == '+' then ParseUnsignedDecimal(s[1..])
    else ParseUnsignedDecimal(s)
  }

  function PrintTenths(n: nat): string {
    PrintNat(n / 10) + ['.'] + [DigitChar(n % 10)]
  }

  function PrintTemperature(t: real): string {
    (if t < 0.0 then ['-'] else []) + PrintTenths(Tenths(t))
  }

  lemma TenthsRoundTrip(n: nat)
    ensures ParseUnsignedDecimal(PrintTenths(n)) == Some(n as real / 10.0)
    ensures IsDigit(PrintTenths(n)[0])
  {
    var whole := PrintNat(n / 10);
    var fraction := [DigitChar(n % 10)];
    PrintedNumeral(n / 10);
    assert PrintTenths(n)[0] == whole[0];
    CutAtFirst(whole, '.', fraction);
    assert PrintTenths(n) == whole + ['.'] + fraction;
    TenthsValue(n);
    assert |fraction| == 1 && NumeralValue(whole + fraction) as real / PowerOfTen(1) as real == n as real / 10.0;
  }

  lemma TenthsValue(n: nat)
    ensures Digits(PrintNat(n / 10) + [DigitChar(n % 10)])
    ensures NumeralValue(PrintNat(n / 10) + [DigitChar(n % 10)]) == n
    ensures PowerOfTen(1) == 10
  {
    var whole := PrintNat(n / 10);
    PrintedNumeral(n / 10);
    assert (whole + [DigitChar(n % 10)])[..|whole|] == whole;
    assert PowerOfTen(0) == 1;
  }

  lemma RoundedIsClose(t: real)
    ensures -0.05 <= Rounded(t) - t <= 0.05
  {
  }

  /** A printed temperature reads back as the original rounded to one decimal, half to even. */
  lemma TemperatureRoundTrip(t: real)
    ensures ParseDecimal(PrintTemperature(t)) == Some(Rounded(t)) && -0.05 <= Rounded(t) - t <= 0.05
  {
    RoundedIsClose(t);
    TenthsRoundTrip(Tenths(t));
    if t < 0.0 {
      assert PrintTemperature(t)[1..] == PrintTenths(Tenths(t));
    } else {
      assert PrintTemperature(t) == PrintTenths(Tenths(t));
    }
  }

  // ---- Printing ----

  datatype FallbackEvent = FallbackEvent(
    siteId: string,
    assetId: string,
    sequence: Uint64,
    code: Code,
    temperature: Option<real>,
    occurredAt: Option<Millis>)

  datatype Heartbeat = Heartbeat(
    siteId: string,
    gatewayId: string,
    sequence: Uint64,
    interval: int,
    sentAt: Option<Millis>)

  datatype FormatError = BadIdentity | MissingSequenceOrTime | MissingTemperature | UnexpectedTemperature
                       | WrongSiteAsset | BadInterval | TooLong

  function Field(key: string, value: string): string {
    key + ['='] + value
  }

  function EpochSeconds(at: Millis): int {
    at / 1000
  }

  function CriticalParts(e: FallbackEvent): seq<string>
    requires e.occurredAt.Some?
  {
    ["AMBAGRID", Field("v", "1"), Field("site", e.siteId), Field("asset", e.assetId),
     Field("seq", PrintNat(e.sequence)), Field("code", CodeName(e.code))]
    + (if e.temperature.Some? then [Field("temp", PrintTemperature(e.temperature.value))] else [])
    + [Field("ts", PrintInt(EpochSeconds(e.occurredAt.value)))]
  }

  function Complaint(e: FallbackEvent): Option<FormatError> {
    if !ValidToken(e.siteId) || !ValidToken(e.assetId) then Some(BadIdentity)
    else if e.sequence == 0 || e.occurredAt.None? then Some(MissingSequenceOrTime)
    else if e.code == BatteryOverheat && e.temperature.None? then Some(MissingTemperature)
    else if e.code != BatteryOverheat && e.temperature.Some? then Some(UnexpectedTemperature)
    else if (e.code == SiteOutage) != (e.assetId == "site") then Some(WrongSiteAsset)
    else None
  }

  function Format(e: FallbackEvent): Result<string, FormatError> {
    if Complaint(e).Some? then Err(Complaint(e).value)
    else
      var message := Join(CriticalParts(e), '|');
      if Septets(message) > MAX_SEPTETS then Err(TooLong) else Ok(message)
  }

  function HeartbeatParts(h: Heartbeat): seq<string>
    requires h.sentAt.Some? && h.interval >= 0
  {
    ["AMBAGRID", Field("v", "1"), Field("kind", "HB"), Field("site", h.siteId), Field("gw", h.gatewayId),
     Field("seq", PrintNat(h.sequence)), Field("int", PrintInt(h.interval / NANOS_PER_SECOND)),
     Field("ts", PrintInt(EpochSeconds(h.sentAt.value)))]
  }

  function HeartbeatComplaint(h: Heartbeat): Option<FormatError> {
    if !ValidToken(h.siteId) || !ValidToken(h.gatewayId) then Some(BadIdentity)
    else if h.sequence == 0 || h.sentAt.None? then Some(MissingSequenceOrTime)
    else if h.interval < MIN_HEARTBEAT_INTERVAL || h.interval > MAX_HEARTBEAT_INTERVAL || h.interval % NANOS_PER_SECOND != 0
    then Some(BadInterval)
    else None
  }

  function FormatHeartbeat(h: Heartbeat): Result<string, FormatError> {
    if HeartbeatComplaint(h).Some? then Err(HeartbeatComplaint(h).value)
    else
      var message := Join(HeartbeatParts(h), '|');
      if Septets(message) > MAX_SEPTETS then Err(TooLong) else Ok(message)
  }

  // ---- Parsing ----

  datatype SmsError = NotOneSegment | BadEnvelope | BadField | DuplicateField | BadVersion | UnknownField
                    | BadSequence | BadTimestamp | BadIdentityOrCode | BadTemperature | TemperatureRequired
                    | TemperatureForbidden | FieldsOutOfOrder | SiteAssetMismatch | UnknownKind | BadHeartbeatInterval

  datatype Fields = Fields(values: map<string, string>, keys: seq<string>)
  {
    /** A missing key reads as the empty string. */
    function Get(key: string): string {
      if key in values then values[key] else ""
    }
  }

  datatype ReceivedEvent = ReceivedEvent(
    siteId: string, assetId: string, sequence: Uint64, code: Code, temperature: Option<real>, occurredAtSeconds: int)

  datatype ReceivedHeartbeat = ReceivedHeartbeat(
    siteId: string, gatewayId: string, sequence: Uint64, interval: int, sentAtSeconds: int)

  datatype Inbound = Critical(event: ReceivedEvent) | Liveness(heartbeat: ReceivedHeartbeat)

  function ReadField(fields: Fields, part: string): Result<Fields, SmsError> {
    match Cut(part, '=')
    case None => Err(BadField)
    case Some((key, value)) =>
      if key == "" || value == "" then Err(BadField)
      else if key in fields.values then Err(DuplicateField)
      else Ok(Fields(fields.values[key := value], fields.keys + [key]))
  }

  function ReadFields(parts: seq<string>): Result<Fields, SmsError> {
    if parts == [] then Ok(Fields(map[], []))
    else match ReadFields(parts[..|parts| - 1])
      case Err(e) => Err(e)
      case Ok(fields) => ReadField(fields, parts[|parts| - 1])
  }

  function SplitMessage(message: string): Result<Fields, SmsError> {
    if message == "" || Septets(message) > MAX_SEPTETS then Err(NotOneSegment)
    else
      var parts := Split(message, '|');
      if |parts| < 7 || parts[0] != "AMBAGRID" then Err(BadEnvelope)
      else match ReadFields(parts[1..])
        case Err(e) => Err(e)
        case Ok(fields) => if fields.Get("v") != "1" then Err(BadVersion) else Ok(fields)
  }

  lemma {:induction false} ReadFieldsStops(parts: seq<string>, n: nat)
    requires n <= |parts| && ReadFields(parts[..n]).Err?
    ensures ReadFields(parts) == ReadFields(parts[..n])
    decreases |parts|
  {
    if n == |parts| {
      assert parts[..n] == parts;
    } else {
      assert parts[..|parts| - 1][..n] == parts[..n];
      ReadFieldsStops(parts[..|parts| - 1], n);
    }
  }

  method SplitSmsMessage(message: string) returns (r: Result<Fields, SmsError>)
    ensures r == SplitMessage(message)
  {
    var septets := GsmSeptets(message);
    if |message| == 0 || septets > MAX_SEPTETS {
      return Err(NotOneSegment);
    }
    var parts := Split(message, '|');
    if |parts| < 7 || parts[0] != "AMBAGRID" {
      return Err(BadEnvelope);
    }
    var rest := parts[1..];
    var fields := Fields(map[], []);
    for i := 0 to |rest|
      invariant ReadFields(rest[..i]) == Ok(fields)
    {
      assert rest[..i + 1][..i] == rest[..i];
      var next := ReadField(fields, rest[i]);
      if next.Err? {
        ReadFieldsStops(rest, i + 1);
        return Err(next.error);
      }
      fields := next.value;
    }
    assert rest[..|rest|] == rest;
    if fields.Get("v") != "1" {
      return Err(BadVersion);
    }
    return Ok(fields);
  }

  const CRITICAL_KEYS := ["v", "site", "asset", "seq", "code", "ts"]
  const OVERHEAT_KEYS := ["v", "site", "asset", "seq", "code", "temp", "ts"]
  const HEARTBEAT_KEYS := ["v", "kind", "site", "gw", "seq", "int", "ts"]

  function ParseCritical(fields: Fields): Result<ReceivedEvent, SmsError> {
    if exists k | k in fields.values :: k !in OVERHEAT_KEYS then Err(UnknownField)
    else CheckCritical(fields.keys, fields.Get("site"), fields.Get("asset"), fields.Get("temp") != "",
                       ParseUint64(fields.Get("seq")), ParseInt64(fields.Get("ts")), ParseCode(fields.Get("code")),
                       if fields.Get("temp") == "" then None else ParseDecimal(fields.Get("temp")))
  }

  function KeysFor(code: Code): seq<string> {
    if code == BatteryOverheat then OVERHEAT_KEYS else CRITICAL_KEYS
  }

  function CheckCritical(keys: seq<string>, site: string, asset: string, hasTemperature: bool,
                         sequence: Option<Uint64>, epoch: Option<int>, code: Option<Code>, temperature: Option<real>)
    : Result<ReceivedEvent, SmsError>
  {
    if sequence.None? || sequence.value == 0 then Err(BadSequence)
    else if epoch.None? || epoch.value <= 0 then Err(BadTimestamp)
    else if code.None? || !ValidToken(site) || !ValidToken(asset) then Err(BadIdentityOrCode)
    else if hasTemperature && temperature.None? then Err(BadTemperature)
    else if code.value == BatteryOverheat && temperature.None? then Err(TemperatureRequired)
    else if code.value != BatteryOverheat && temperature.Some? then Err(TemperatureForbidden)
    else if Join(keys, ',') != Join(KeysFor(code.value), ',') then Err(FieldsOutOfOrder)
    else if (code.value == SiteOutage) != (asset == "site") then Err(SiteAssetMismatch)
    else Ok(ReceivedEvent(site, asset, sequence.value, code.value, temperature, epoch.value))
  }

  /** Two's-complement 64-bit wrap-around of a product of seconds and nanoseconds. */
  function WrapInt64(n: int): int {
    (n + INT64_LIMIT) % UINT64_LIMIT - INT64_LIMIT
  }

  function ParseHeartbeat(fields: Fields): Result<ReceivedHeartbeat, SmsError> {
    var seconds := ParseInt64(fields.Get("int"));
    CheckHeartbeat(fields, ParseUint64(fields.Get("seq")), ParseInt64(fields.Get("ts")),
                   if seconds.Some? then WrapInt64(seconds.value * NANOS_PER_SECOND) else 0)
  }

  function CheckHeartbeat(fields: Fields, sequence: Option<Uint64>, epoch: Option<int>, interval: int): Result<ReceivedHeartbeat, SmsError> {
    if fields.Get("kind") != "HB" then Err(UnknownKind)
    else if Join(fields.keys, ',') != Join(HEARTBEAT_KEYS, ',') then Err(FieldsOutOfOrder)
    else if sequence.None? || sequence.value == 0 then Err(BadSequence)
    else if epoch.None? || epoch.value <= 0 then Err(BadTimestamp)
    else if interval < MIN_HEARTBEAT_INTERVAL || interval > MAX_HEARTBEAT_INTERVAL then Err(BadHeartbeatInterval)
    else if !ValidToken(fields.Get("site")) || !ValidToken(fields.Get("gw")) then Err(BadIdentityOrCode)
    else Ok(ReceivedHeartbeat(fields.Get("site"), fields.Get("gw"), sequence.value, interval, epoch.value))
  }

  function ParseMessage(message: string): Result<Inbound, SmsError> {
    match SplitMessage(message)
    case Err(e) => Err(e)
    case Ok(fields) =>
      if "kind" in fields.values then
        match ParseHeartbeat(fields) case Err(e) => Err(e) case Ok(h) => Ok(Liveness(h))
      else
        match ParseCritical(fields) case Err(e) => Err(e) case Ok(c) => Ok(Critical(c))
  }

  // ---- Printed messages parse back ----

  /** Printed fields: distinct keys without '=', non-empty values, and no '|' anywhere. */
  ghost predicate Printable(keys: seq<string>, values: seq<string>) {
    |keys| == |values| && PrintableKeys(keys) && PrintableValues(values)
  }

  ghost predicate PrintableKeys(keys: seq<string>) {
    && (forall i | 0 <= i < |keys| :: keys[i] != "" && '=' !in keys[i] && '|' !in keys[i])
    && (forall i, j | 0 <= i < j < |keys| :: keys[i] != keys[j])
  }

  ghost predicate PrintableValues(values: seq<string>) {
    forall i | 0 <= i < |values| :: PrintableValue(values[i])
  }

  ghost predicate PrintableValue(value: string) {
    value != "" && '|' !in value
  }

  lemma MessageKeysPrintable()
    ensures PrintableKeys(CRITICAL_KEYS)
    ensures PrintableKeys(OVERHEAT_KEYS)
    ensures PrintableKeys(HEARTBEAT_KEYS)
  {
  }

  lemma Recorded(fields: Fields, keys: seq<string>, values: seq<string>, i: nat)
    requires |keys| == |values| && Records(fields, keys, values) && i < |keys|
    ensures keys[i] in fields.values && fields.Get(keys[i]) == values[i]
  {
  }

  function PrintedFields(keys: seq<string>, values: seq<string>): (parts: seq<string>)
    requires |keys| == |values|
    ensures |parts| == |keys|
    ensures forall i | 0 <= i < |keys| :: parts[i] == Field(keys[i], values[i])
  {
    if keys == [] then []
    else
      var n := |keys| - 1;
      PrintedFields(keys[..n], values[..n]) + [Field(keys[n], values[n])]
  }

  /** The fields record exactly the printed keys, in order, each with its value. */
  ghost predicate Records(fields: Fields, keys: seq<string>, values: seq<string>)
    requires |keys| == |values|
  {
    && fields.keys == keys
    && (forall k | k in fields.values :: k in keys)
    && (forall i | 0 <= i < |keys| :: keys[i] in fields.values && fields.values[keys[i]] == values[i])
  }

  lemma ReadPrintedField(fields: Fields, keys: seq<string>, values: seq<string>, key: string, value: string)
    requires |keys| == |values| && Records(fields, keys, values)
    requires key != "" && '=' !in key && value != "" && key !in keys
    ensures var r := ReadField(fields, Field(key, value));
      r.Ok? && Records(r.value, keys + [key], values + [value])
  {
    CutAtFirst(key, '=', value);
  }

  lemma PrintedAppend(keys: seq<string>, values: seq<string>, key: string, value: string)
    requires |keys| == |values|
    ensures PrintedFields(keys + [key], values + [value]) == PrintedFields(keys, values) + [Field(key, value)]
  {
    assert (keys + [key])[..|keys|] == keys && (values + [value])[..|keys|] == values;
  }

  lemma ReadFieldsLast(parts: seq<string>, last: string)
    requires ReadFields(parts).Ok?
    ensures ReadFields(parts + [last]) == ReadField(ReadFields(parts).value, last)
  {
    assert (parts + [last])[..|parts|] == parts;
  }

  ghost predicate ReadsBack(keys: seq<string>, values: seq<string>)
    requires |keys| == |values|
  {
    var r := ReadFields(PrintedFields(keys, values)); r.Ok? && Records(r.value, keys, values)
  }

  lemma ReadsBackOneMore(keys: seq<string>, values: seq<string>, key: string, value: string)
    requires |keys| == |values| && ReadsBack(keys, values)
    requires key != "" && '=' !in key && value != "" && key !in keys
    ensures ReadsBack(keys + [key], values + [value])
  {
    ReadPrintedField(ReadFields(PrintedFields(keys, values)).value, keys, values, key, value);
    ReadFieldsLast(PrintedFields(keys, values), Field(key, value));
    PrintedAppend(keys, values, key, value);
  }

  lemma PrintablePrefix(keys: seq<string>, values: seq<string>, n: nat)
    requires Printable(keys, values) && n < |keys|
    ensures Printable(keys[..n], values[..n])
    ensures keys[n] != "" && '=' !in keys[n] && values[n] != "" && keys[n] !in keys[..n]
  {
    assert PrintableValue(values[n]);
    forall i | 0 <= i < n ensures PrintableValue(values[..n][i]) {
      assert PrintableValue(values[i]);
    }
  }

  lemma DropLast(s: seq<string>)
    requires s != []
    ensures s[..|s| - 1] + [s[|s| - 1]] == s
  {
  }

  lemma {:induction false} ReadPrintedFields(keys: seq<string>, values: seq<string>)
    requires Printable(keys, values)
    ensures ReadsBack(keys, values)
  {
    if keys != [] {
      var n := |keys| - 1;
      PrintablePrefix(keys, values, n);
      ReadPrintedFields(keys[..n], values[..n]);
      DropLast(keys);
      DropLast(values);
      ReadsBackOneMore(keys[..n], values[..n], keys[n], values[n]);
    }
  }

  lemma PrintedPartsSplit(keys: seq<string>, values: seq<string>)
    requires Printable(keys, values)
    ensures Split(Join(["AMBAGRID"] + PrintedFields(keys, values), '|'), '|') == ["AMBAGRID"] + PrintedFields(keys, values)
  {
    var parts := ["AMBAGRID"] + PrintedFields(keys, values);
    forall i | 0 <= i < |parts| ensures '|' !in parts[i] {
      if i > 0 {
        assert parts[i] == Field(keys[i - 1], values[i - 1]);
        assert PrintableValue(values[i - 1]);
      }
    }
    SplitJoin(parts, '|');
  }

  lemma SplitPrinted(keys: seq<string>, values: seq<string>, message: string)
    requires Printable(keys, values) && |keys| >= 6 && keys[0] == "v" && values[0] == "1"
    requires message == Join(["AMBAGRID"] + PrintedFields(keys, values), '|') && Septets(message) <= MAX_SEPTETS
    ensures var r := SplitMessage(message); r.Ok? && Records(r.value, keys, values)
  {
    PrintedPartsSplit(keys, values);
    ReadPrintedFields(keys, values);
    SplitReads(message, PrintedFields(keys, values));
    Recorded(ReadFields(PrintedFields(keys, values)).value, keys, values, 0);
  }

  /** What is left of the envelope once the message is known to split into parts that read. */
  lemma SplitReads(message: string, fields: seq<string>)
    requires Split(message, '|') == ["AMBAGRID"] + fields && |fields| >= 6 && Septets(message) <= MAX_SEPTETS
    requires ReadFields(fields).Ok?
    ensures SplitMessage(message) == if ReadFields(fields).value.Get("v") != "1" then Err(BadVersion) else ReadFields(fields)
  {
    assert (["AMBAGRID"] + fields)[1..] == fields;
  }

  lemma TokenPrintable(s: string)
    requires ValidToken(s)
    ensures PrintableValue(s)
  {
  }

  lemma IntPrintable(i: int)
    ensures PrintableValue(PrintInt(i))
  {
    PrintedNumeral(if i < 0 then -i else i);
  }

  lemma TemperaturePrintable(t: real)
    ensures PrintableValue(PrintTemperature(t))
  {
    PrintedNumeral(Tenths(t) / 10);
  }

  function CriticalValues(e: FallbackEvent): seq<string>
    requires e.occurredAt.Some?
  {
    ["1", e.siteId, e.assetId, PrintNat(e.sequence), CodeName(e.code)]
    + (if e.temperature.Some? then [PrintTemperature(e.temperature.value)] else [])
    + [PrintInt(EpochSeconds(e.occurredAt.value))]
  }

  function CriticalKeys(e: FallbackEvent): seq<string> {
    if e.temperature.Some? then OVERHEAT_KEYS else CRITICAL_KEYS
  }

  lemma CriticalValuesPrintable(e: FallbackEvent)
    requires Format(e).Ok?
    ensures PrintableValues(CriticalValues(e))
  {
    TokenPrintable(e.siteId);
    TokenPrintable(e.assetId);
    IntPrintable(e.sequence);
    IntPrintable(EpochSeconds(e.occurredAt.value));
    if e.temperature.Some? {
      TemperaturePrintable(e.temperature.value);
    }
  }

  lemma CriticalPartsAreFields(e: FallbackEvent)
    requires e.occurredAt.Some?
    ensures |CriticalKeys(e)| == |CriticalValues(e)|
    ensures CriticalParts(e) == ["AMBAGRID"] + PrintedFields(CriticalKeys(e), CriticalValues(e))
  {
    var keys, values := CriticalKeys(e), CriticalValues(e);
    var parts := ["AMBAGRID"] + PrintedFields(keys, values);
    assert |parts| == |CriticalParts(e)|;
    forall i | 0 <= i < |parts| ensures parts[i] == CriticalParts(e)[i] {
      assert i > 0 ==> parts[i] == Field(keys[i - 1], values[i - 1]);
    }
  }

  /** What survives the trip: whole seconds, and the temperature to one decimal. */
  function AsReceived(e: FallbackEvent): ReceivedEvent
    requires e.occurredAt.Some?
  {
    ReceivedEvent(e.siteId, e.assetId, e.sequence, e.code,
                  if e.temperature.Some? then Some(Rounded(e.temperature.value)) else None,
                  EpochSeconds(e.occurredAt.value))
  }

  /**
   Every message the edge can print fits one segment and is parsed as the same event, exactly when its time is
   after the epoch.
   */
  lemma {:induction false} CriticalRoundTrip(e: FallbackEvent)
    requires Format(e).Ok?
    ensures Septets(Format(e).value) <= MAX_SEPTETS
    ensures ParseMessage(Format(e).value) ==
      if EpochSeconds(e.occurredAt.value) >= 1 then Ok(Critical(AsReceived(e))) else Err(BadTimestamp)
  {
    MessageKeysPrintable();
    CriticalValuesPrintable(e);
    CriticalPartsAreFields(e);
    SplitPrinted(CriticalKeys(e), CriticalValues(e), Format(e).value);
    var fields := SplitMessage(Format(e).value).value;
    CriticalFieldsCarried(e, fields);
    CriticalFieldsParse(e, fields);
  }

  /** The parsed fields, read one by one, are what was printed. */
  ghost predicate CarriesCritical(fields: Fields, e: FallbackEvent)
    requires e.occurredAt.Some?
  {
    && fields.Get("site") == e.siteId && fields.Get("asset") == e.assetId
    && fields.Get("seq") == PrintNat(e.sequence) && fields.Get("code") == CodeName(e.code)
    && fields.Get("temp") == (if e.temperature.Some? then PrintTemperature(e.temperature.value) else "")
    && fields.Get("ts") == PrintInt(EpochSeconds(e.occurredAt.value))
    && fields.keys == CriticalKeys(e)
    && "kind" !in fields.values
    && forall k | k in fields.values :: k in OVERHEAT_KEYS
  }

  lemma CriticalKeysKnown(e: FallbackEvent)
    ensures forall k | k in CriticalKeys(e) :: k in OVERHEAT_KEYS
    ensures "temp" in CriticalKeys(e) <==> e.temperature.Some?
    ensures "kind" !in CriticalKeys(e)
  {
  }

  lemma CriticalFieldsCarried(e: FallbackEvent, fields: Fields)
    requires e.occurredAt.Some? && |CriticalKeys(e)| == |CriticalValues(e)|
    requires Records(fields, CriticalKeys(e), CriticalValues(e))
    ensures CarriesCritical(fields, e)
  {
    var keys, values := CriticalKeys(e), CriticalValues(e);
    CriticalKeysKnown(e);
    Recorded(fields, keys, values, 1);
    Recorded(fields, keys, values, 2);
    Recorded(fields, keys, values, 3);
    Recorded(fields, keys, values, 4);
    Recorded(fields, keys, values, |keys| - 1);
    if e.temperature.Some? {
      Recorded(fields, keys, values, 5);
    }
  }

  lemma PrintedTemperatureParses(t: Option<real>)
    ensures var text := if t.Some? then PrintTemperature(t.value) else "";
      && (text == "" <==> t.None?)
      && (if text == "" then None else ParseDecimal(text)) == if t.Some? then Some(Rounded(t.value)) else None
  {
    if t.Some? {
      TemperatureRoundTrip(t.value);
      TemperaturePrintable(t.value);
    }
  }

  lemma CriticalFieldsParse(e: FallbackEvent, fields: Fields)
    requires Complaint(e).None? && CarriesCritical(fields, e)
    ensures ParseCritical(fields) ==
      if EpochSeconds(e.occurredAt.value) >= 1 then Ok(AsReceived(e)) else Err(BadTimestamp)
  {
    ParsePrintedUint(e.sequence);
    ParsePrintedInt(EpochSeconds(e.occurredAt.value));
    CodeParses(e.code);
    PrintedTemperatureParses(e.temperature);
    CriticalFieldsCheck(e, EpochSeconds(e.occurredAt.value), if e.temperature.Some? then Some(Rounded(e.temperature.value)) else None);
  }

  lemma CodeParses(code: Code)
    ensures ParseCode(CodeName(code)) == Some(code)
  {
  }

  /** An event that could be printed passes every check of the parser but the one on its time. */
  lemma CriticalFieldsCheck(e: FallbackEvent, epoch: int, temperature: Option<real>)
    requires Complaint(e).None? && temperature.Some? == e.temperature.Some?
    ensures CheckCritical(CriticalKeys(e), e.siteId, e.assetId, e.temperature.Some?, Some(e.sequence), Some(epoch), Some(e.code), temperature) ==
      if epoch >= 1 then Ok(ReceivedEvent(e.siteId, e.assetId, e.sequence, e.code, temperature, epoch)) else Err(BadTimestamp)
  {
    assert CriticalKeys(e) == KeysFor(e.code);
  }

  function HeartbeatValues(h: Heartbeat): seq<string>
    requires h.sentAt.Some? && h.interval >= 0
  {
    ["1", "HB", h.siteId, h.gatewayId, PrintNat(h.sequence), PrintInt(h.interval / NANOS_PER_SECOND),
     PrintInt(EpochSeconds(h.sentAt.value))]
  }

  lemma HeartbeatValuesPrintable(h: Heartbeat)
    requires FormatHeartbeat(h).Ok?
    ensures PrintableValues(HeartbeatValues(h))
  {
    TokenPrintable(h.siteId);
    TokenPrintable(h.gatewayId);
    IntPrintable(h.sequence);
    IntPrintable(h.interval / NANOS_PER_SECOND);
    IntPrintable(EpochSeconds(h.sentAt.value));
  }

  lemma HeartbeatPartsAreFields(h: Heartbeat)
    requires h.sentAt.Some? && h.interval >= 0
    ensures HeartbeatParts(h) == ["AMBAGRID"] + PrintedFields(HEARTBEAT_KEYS, HeartbeatValues(h))
  {
    var values := HeartbeatValues(h);
    var parts := ["AMBAGRID"] + PrintedFields(HEARTBEAT_KEYS, values);
    forall i | 0 <= i < |parts| ensures parts[i] == HeartbeatParts(h)[i] {
      assert i > 0 ==> parts[i] == Field(HEARTBEAT_KEYS[i - 1], values[i - 1]);
    }
  }

  /** The same for a liveness message, with its declared interval. */
  lemma {:induction false} HeartbeatRoundTrip(h: Heartbeat)
    requires FormatHeartbeat(h).Ok?
    ensures Septets(FormatHeartbeat(h).value) <= MAX_SEPTETS
    ensures ParseMessage(FormatHeartbeat(h).value) ==
      if EpochSeconds(h.sentAt.value) >= 1
      then Ok(Liveness(ReceivedHeartbeat(h.siteId, h.gatewayId, h.sequence, h.interval, EpochSeconds(h.sentAt.value))))
      else Err(BadTimestamp)
  {
    MessageKeysPrintable();
    HeartbeatValuesPrintable(h);
    HeartbeatPartsAreFields(h);
    SplitPrinted(HEARTBEAT_KEYS, HeartbeatValues(h), FormatHeartbeat(h).value);
    var fields := SplitMessage(FormatHeartbeat(h).value).value;
    HeartbeatFieldsCarried(h, fields);
    HeartbeatFieldsParse(h, fields);
  }

  ghost predicate CarriesHeartbeat(fields: Fields, h: Heartbeat)
    requires h.sentAt.Some? && h.interval >= 0
  {
    && "kind" in fields.values && fields.Get("kind") == "HB"
    && fields.Get("site") == h.siteId && fields.Get("gw") == h.gatewayId
    && fields.Get("seq") == PrintNat(h.sequence)
    && fields.Get("int") == PrintInt(h.interval / NANOS_PER_SECOND)
    && fields.Get("ts") == PrintInt(EpochSeconds(h.sentAt.value))
    && fields.keys == HEARTBEAT_KEYS
  }

  lemma HeartbeatFieldsCarried(h: Heartbeat, fields: Fields)
    requires h.sentAt.Some? && h.interval >= 0
    requires Records(fields, HEARTBEAT_KEYS, HeartbeatValues(h))
    ensures CarriesHeartbeat(fields, h)
  {
    var values := HeartbeatValues(h);
    Recorded(fields, HEARTBEAT_KEYS, values, 1);
    Recorded(fields, HEARTBEAT_KEYS, values, 2);
    Recorded(fields, HEARTBEAT_KEYS, values, 3);
    Recorded(fields, HEARTBEAT_KEYS, values, 4);
    Recorded(fields, HEARTBEAT_KEYS, values, 5);
    Recorded(fields, HEARTBEAT_KEYS, values, 6);
  }

  lemma IntervalSurvives(interval: int)
    requires MIN_HEARTBEAT_INTERVAL <= interval <= MAX_HEARTBEAT_INTERVAL && interval % NANOS_PER_SECOND == 0
    ensures WrapInt64(interval / NANOS_PER_SECOND * NANOS_PER_SECOND) == interval
  {
    assert interval / NANOS_PER_SECOND * NANOS_PER_SECOND == interval;
  }

  lemma HeartbeatFieldsCheck(h: Heartbeat, fields: Fields, epoch: int)
    requires HeartbeatComplaint(h).None? && CarriesHeartbeat(fields, h)
    ensures CheckHeartbeat(fields, Some(h.sequence), Some(epoch), h.interval) ==
      if epoch >= 1 then Ok(ReceivedHeartbeat(h.siteId, h.gatewayId, h.sequence, h.interval, epoch)) else Err(BadTimestamp)
  {
  }

  lemma HeartbeatFieldsParse(h: Heartbeat, fields: Fields)
    requires HeartbeatComplaint(h).None? && CarriesHeartbeat(fields, h)
    ensures ParseHeartbeat(fields) ==
      if EpochSeconds(h.sentAt.value) >= 1
      then Ok(ReceivedHeartbeat(h.siteId, h.gatewayId, h.sequence, h.interval, EpochSeconds(h.sentAt.value)))
      else Err(BadTimestamp)
  {
    ParsePrintedUint(h.sequence);
    ParsePrintedInt(h.interval / NANOS_PER_SECOND);
    ParsePrintedInt(EpochSeconds(h.sentAt.value));
    IntervalSurvives(h.interval);
    HeartbeatFieldsCheck(h, fields, EpochSeconds(h.sentAt.value));
  }

  // ---- Event keys ----

  const EVENT_KEY_PREFIX := "edge:"

  function EventKey(siteId: string, sequence: nat): string {
    EVENT_KEY_PREFIX + siteId + [':'] + PrintNat(sequence)
  }

  datatype KeyError = InvalidSourceEvent | InvalidSequence

  /** The engine's reading of a key: prefix, then the last colon separates site and sequence. */
  function ParseEventKey(raw: string): Result<(string, int), KeyError> {
    if !(EVENT_KEY_PREFIX <= raw) then Err(InvalidSourceEvent)
    else match CutLast(raw[|EVENT_KEY_PREFIX|..], ':')
      case None => Err(InvalidSourceEvent)
      case Some((siteId, digits)) =>
        match ParseInt64(digits)
        case None => Err(InvalidSequence)
        case Some(sequence) => if siteId == "" || sequence <= 0 then Err(InvalidSourceEvent) else Ok((siteId, sequence))
  }

  lemma EventKeyRoundTrip(siteId: string, sequence: nat)
    ensures ParseEventKey(EventKey(siteId, sequence)) ==
      if sequence >= INT64_LIMIT then Err(InvalidSequence)
      else if siteId == "" || sequence == 0 then Err(InvalidSourceEvent)
      else Ok((siteId, sequence))
  {
    var raw := EventKey(siteId, sequence);
    assert raw == EVENT_KEY_PREFIX + (siteId + [':'] + PrintNat(sequence));
    assert raw[|EVENT_KEY_PREFIX|..] == siteId + [':'] + PrintNat(sequence);
    PrintedNumeral(sequence);
    CutAtLast(siteId, ':', PrintNat(sequence));
    ParsePrintedInt(sequence);
  }

  lemma EventKeyIsEdge(siteId: string, sequence: nat)
    ensures |EventKey(siteId, sequence)| >= 5 && EventKey(siteId, sequence)[..5] == EVENT_KEY_PREFIX
  {
    assert EventKey(siteId, sequence) == EVENT_KEY_PREFIX + (siteId + [':'] + PrintNat(sequence));
  }

  /** Distinct events never share a key, whatever characters the site identity contains. */
  lemma EventKeysDistinct(siteId: string, sequence: nat, siteId': string, sequence': nat)
    requires EventKey(siteId, sequence) == EventKey(siteId', sequence')
    ensures siteId == siteId' && sequence == sequence'
  {
    var raw := EventKey(siteId, sequence);
    assert raw[|EVENT_KEY_PREFIX|..] == siteId + [':'] + PrintNat(sequence);
    assert raw[|EVENT_KEY_PREFIX|..] == siteId' + [':'] + PrintNat(sequence');
    PrintedNumeral(sequence);
    PrintedNumeral(sequence');
    CutAtLast(siteId, ':', PrintNat(sequence));
    CutAtLast(siteId', ':', PrintNat(sequence'));
  }
}
