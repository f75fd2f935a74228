/** Which setting `config_update` writes under which key of which section. */
module ConfigSettings {
  import opened Prelude
  import opened Text
  import opened BacnetConfig
  import opened ConfigLine
  import opened ConfigFile

  // ---------------------------------------------------------------------------------------------
  // The section of a line

  const HEADERS: seq<string> :=
    ["bacnet:", "discovery:", "local_device:", "network:", "services:", "connection:", "hot_config:"]

  /** The first of the headers, in their order, that stands in the line. */
  function Header(line: string, headers: seq<string>): Option<string> {
    if headers == [] then None
    else if Find(line, headers[0]).Some? then Some(headers[0])
    else Header(line, headers[1..])
  }

  /** The header that the lines up to line `n` have led to; none is "". */
  function HeaderAt(lines: seq<string>, n: nat, current: string): string
    requires n < |lines|
  {
    var header := Header(lines[0], HEADERS);
    var now := if header.Some? then header.value else current;
    if n == 0 then now else HeaderAt(lines[1..], n - 1, now)
  }

  function HeaderOf(section: Section): string {
    match section
    case NoSection => ""
    case Bacnet => "bacnet:"
    case Discovery => "discovery:"
    case LocalDevice => "local_device:"
    case Network => "network:"
    case Services => "services:"
    case Connection => "connection:"
    case HotConfig => "hot_config:"
  }

  lemma {:induction false} MarkersAreHeaders()
    ensures |MARKERS| == |HEADERS|
    ensures forall k :: 0 <= k < |MARKERS| ==> MARKERS[k].text == HEADERS[k] == HeaderOf(MARKERS[k].section)
  {
  }

  lemma {:induction false} HeaderIsSection(line: string, current: Section, markers: seq<Marker>, headers: seq<string>)
    requires |markers| == |headers|
    requires forall k :: 0 <= k < |markers| ==> markers[k].text == headers[k] == HeaderOf(markers[k].section)
    ensures HeaderOf(SectionOf(line, current, markers))
         == match Header(line, headers)
            case Some(header) => header
            case None => HeaderOf(current)
    decreases |markers|
  {
    if markers != [] {
      assert markers[0].text == headers[0] == HeaderOf(markers[0].section);
      HeaderIsSection(line, current, markers[1..], headers[1..]);
    }
  }

  lemma {:induction false} SectionIsHeader(lines: seq<string>, n: nat, current: Section, layout: Layout)
    requires n < |lines| && layout.markers == MARKERS
    ensures HeaderOf(SectionAt(lines, n, current, layout)) == HeaderAt(lines, n, HeaderOf(current))
  {
    MarkersAreHeaders();
    HeaderIsSection(lines[0], current, MARKERS, HEADERS);
    if n > 0 {
      SectionIsHeader(lines[1..], n - 1, SectionOf(lines[0], current, MARKERS), layout);
    }
  }

  // ---------------------------------------------------------------------------------------------
  // The settings of a section

  function Keys(section: Section): seq<string> {
    match section
    case Discovery => ["target_device_start", "target_device_end", "whois_retry", "response_timeout_ms"]
    case LocalDevice => ["instance_id", "max_apdu"]
    case Network => ["interface", "port", "broadcast_address"]
    case Services =>
      ["read_timeout_ms", "write_timeout_ms", "default_priority", "cache_expiry_ms", "cache_strategy",
       "datalink_maintenance_ms"]
    case Connection => ["max_reconnect_attempts", "reconnect_interval_ms"]
    case HotConfig => ["polling_interval_ms"]
    case _ => []
  }

  /** It starts and ends with characters that belong to a value. */
  predicate Firm(text: string) {
    text != "" && !IsGap(text[0]) && !IsBlank(text[|text| - 1])
  }

  function NonZero(n: nat): (r: Option<string>)
    ensures r.Some? ==> Firm(r.value) && '#' !in r.value
  {
    if n == 0 then None else Some(Decimal(n))
  }

  function InQuotes(text: string): (r: Option<string>)
    ensures r.Some? ==> Firm(r.value)
  {
    if text == "" then None else Some("\"" + text + "\"")
  }

  function AskedDiscovery(cfg: Config, key: string): (r: Option<string>)
    ensures r.Some? ==> Firm(r.value)
  {
    if key == "target_device_start" then NonZero(cfg.targetDeviceStart)
    else if key == "target_device_end" then NonZero(cfg.targetDeviceEnd)
    else if key == "whois_retry" then NonZero(cfg.whoisRetry)
    else if key == "response_timeout_ms" then NonZero(cfg.responseTimeoutMs)
    else None
  }

  function AskedLocalDevice(cfg: Config, key: string): (r: Option<string>)
    ensures r.Some? ==> Firm(r.value)
  {
    if key == "instance_id" then NonZero(cfg.localInstanceId)
    else if key == "max_apdu" then NonZero(cfg.localMaxApdu)
    else None
  }

  function AskedNetwork(cfg: Config, key: string): (r: Option<string>)
    ensures r.Some? ==> Firm(r.value)
  {
    if key == "interface" then InQuotes(cfg.interfaceName)
    else if key == "port" then NonZero(cfg.port)
    else if key == "broadcast_address" then InQuotes(cfg.broadcastAddress)
    else None
  }

  function AskedServices(cfg: Config, key: string): (r: Option<string>)
    ensures r.Some? ==> Firm(r.value)
  {
    if key == "read_timeout_ms" then NonZero(cfg.readTimeoutMs)
    else if key == "write_timeout_ms" then NonZero(cfg.writeTimeoutMs)
    else if key == "default_priority" then NonZero(cfg.defaultPriority)
    else if key == "cache_expiry_ms" then NonZero(cfg.cacheExpiryMs)
    else if key == "cache_strategy" then Some(Decimal(cfg.cacheStrategy))
    else if key == "datalink_maintenance_ms" then NonZero(cfg.datalinkMaintenanceMs)
    else None
  }

  function AskedConnection(cfg: Config, key: string): (r: Option<string>)
    ensures r.Some? ==> Firm(r.value)
  {
    if key == "max_reconnect_attempts" then NonZero(cfg.maxReconnectAttempts)
    else if key == "reconnect_interval_ms" then NonZero(cfg.reconnectIntervalMs)
    else None
  }

  function AskedHotConfig(cfg: Config, key: string): (r: Option<string>)
    ensures r.Some? ==> Firm(r.value)
  {
    if key == "polling_interval_ms" then NonZero(cfg.hotConfigPollingMs) else None
  }

  /** The text to be written under a key of a section, if any. */
  function Asked(cfg: Config, section: Section, key: string): (r: Option<string>)
    ensures r.Some? ==> Firm(r.value)
  {
    match section
    case Discovery => AskedDiscovery(cfg, key)
    case LocalDevice => AskedLocalDevice(cfg, key)
    case Network => AskedNetwork(cfg, key)
    case Services => AskedServices(cfg, key)
    case Connection => AskedConnection(cfg, key)
    case HotConfig => AskedHotConfig(cfg, key)
    case _ => None
  }

  // ---------------------------------------------------------------------------------------------
  // The updates of a section

  /** The value of the first update of a key. */
  function ValueFor(ups: seq<Update>, key: string): Option<string> {
    if ups == [] then None
    else if ups[0].key == key then Some(ups[0].value)
    else ValueFor(ups[1..], key)
  }

  function Count(ups: seq<Update>, key: string): nat {
    if ups == [] then 0 else (if ups[0].key == key then 1 else 0) + Count(ups[1..], key)
  }

  lemma {:induction false} PartsOf(a: seq<Update>, b: seq<Update>, key: string)
    ensures ValueFor(a + b, key) == if ValueFor(a, key).Some? then ValueFor(a, key) else ValueFor(b, key)
    ensures Count(a + b, key) == Count(a, key) + Count(b, key)
    decreases |a|
  {
    if a == [] {
      assert a + b == b;
    } else {
      assert (a + b)[0] == a[0] && (a + b)[1..] == a[1..] + b;
      PartsOf(a[1..], b, key);
    }
  }

  /** One update at most, of this key. */
  predicate One(ups: seq<Update>, name: string, value: Option<string>, key: string) {
    && ValueFor(ups, key) == (if key == name then value else None)
    && Count(ups, key) == (if key == name && value.Some? then 1 else 0)
  }

  lemma {:induction false} OneUpdate(u: Update, key: string)
    ensures One([u], u.key, Some(u.value), key)
  {
    assert [u][1..] == [];
  }

  lemma {:induction false} NumberIsOne(k: Key, n: nat, key: string)
    ensures One(Number(k, n), Name(k), NonZero(n), key)
  {
    OneUpdate(Update(Name(k), Decimal(n)), key);
  }

  lemma {:induction false} QuotedIsOne(k: Key, text: string, key: string)
    ensures One(Quoted(k, text), Name(k), InQuotes(text), key)
  {
    OneUpdate(Update(Name(k), "\"" + text + "\""), key);
  }

  lemma {:induction false} ThreeParts(a: seq<Update>, b: seq<Update>, c: seq<Update>, key: string)
    ensures ValueFor(a + b + c, key)
         == if ValueFor(a, key).Some? then ValueFor(a, key)
            else if ValueFor(b, key).Some? then ValueFor(b, key) else ValueFor(c, key)
    ensures Count(a + b + c, key) == Count(a, key) + Count(b, key) + Count(c, key)
  {
    PartsOf(a, b, key);
    PartsOf(a + b, c, key);
  }

  /** Three parts for three different keys. */
  lemma {:induction false} ThreeAsk(
    a: seq<Update>, b: seq<Update>, c: seq<Update>, x: string, y: string, z: string,
    u: Option<string>, v: Option<string>, w: Option<string>, key: string)
    requires One(a, x, u, key) && One(b, y, v, key) && One(c, z, w, key) && x != y && y != z && x != z
    ensures ValueFor(a + b + c, key) == (if key == x then u else if key == y then v else if key == z then w else None)
    ensures Count(a + b + c, key) <= (if key == x || key == y || key == z then 1 else 0)
  {
    ThreeParts(a, b, c, key);
  }

  /** The updates ask for the value under the key, once. */
  predicate Asks(cfg: Config, section: Section, key: string) {
    ValueFor(Updates(cfg, section), key) == Asked(cfg, section, key) && Count(Updates(cfg, section), key) <= 1
  }

  lemma {:induction false} DevicesAsk(cfg: Config, key: string)
    ensures var ups := Number(TargetDeviceStart, cfg.targetDeviceStart) + Number(TargetDeviceEnd, cfg.targetDeviceEnd)
                       + Number(WhoisRetry, cfg.whoisRetry);
            && ValueFor(ups, key) == (if key == "response_timeout_ms" then None else AskedDiscovery(cfg, key))
            && Count(ups, key) <= (if key == "response_timeout_ms" then 0 else 1)
  {
    NumberIsOne(TargetDeviceStart, cfg.targetDeviceStart, key);
    NumberIsOne(TargetDeviceEnd, cfg.targetDeviceEnd, key);
    NumberIsOne(WhoisRetry, cfg.whoisRetry, key);
    ThreeAsk(Number(TargetDeviceStart, cfg.targetDeviceStart), Number(TargetDeviceEnd, cfg.targetDeviceEnd),
             Number(WhoisRetry, cfg.whoisRetry), "target_device_start", "target_device_end", "whois_retry",
             NonZero(cfg.targetDeviceStart), NonZero(cfg.targetDeviceEnd), NonZero(cfg.whoisRetry), key);
    assert "target_device_start"[0] != "response_timeout_ms"[0];
  }

  lemma {:induction false} DiscoveryAsks(cfg: Config, key: string)
    ensures Asks(cfg, Discovery, key)
  {
    DevicesAsk(cfg, key);
    NumberIsOne(ResponseTimeout, cfg.responseTimeoutMs, key);
    PartsOf(Number(TargetDeviceStart, cfg.targetDeviceStart) + Number(TargetDeviceEnd, cfg.targetDeviceEnd)
            + Number(WhoisRetry, cfg.whoisRetry), Number(ResponseTimeout, cfg.responseTimeoutMs), key);
  }

  lemma {:induction false} LocalDeviceAsks(cfg: Config, key: string)
    ensures Asks(cfg, LocalDevice, key)
  {
    NumberIsOne(InstanceId, cfg.localInstanceId, key);
    NumberIsOne(MaxApdu, cfg.localMaxApdu, key);
    PartsOf(Number(InstanceId, cfg.localInstanceId), Number(MaxApdu, cfg.localMaxApdu), key);
  }

  lemma {:induction false} NetworkAsks(cfg: Config, key: string)
    ensures Asks(cfg, Network, key)
  {
    QuotedIsOne(Interface, cfg.interfaceName, key);
    NumberIsOne(Port, cfg.port, key);
    QuotedIsOne(BroadcastAddress, cfg.broadcastAddress, key);
    ThreeAsk(Quoted(Interface, cfg.interfaceName), Number(Port, cfg.port),
             Quoted(BroadcastAddress, cfg.broadcastAddress), "interface", "port", "broadcast_address",
             InQuotes(cfg.interfaceName), NonZero(cfg.port), InQuotes(cfg.broadcastAddress), key);
  }

  predicate IsTimeout(key: string) {
    key == "read_timeout_ms" || key == "write_timeout_ms" || key == "default_priority"
  }

  predicate IsCache(key: string) {
    key == "cache_expiry_ms" || key == "cache_strategy" || key == "datalink_maintenance_ms"
  }

  lemma {:induction false} TimeoutOrCache(cfg: Config, key: string)
    ensures !IsTimeout(key) || !IsCache(key)
    ensures !IsTimeout(key) && !IsCache(key) ==> AskedServices(cfg, key).None?
  {
    assert "read_timeout_ms"[0] != "cache_expiry_ms"[0];
  }

  /** The first three of the services. */
  function Timeouts(cfg: Config): seq<Update> {
    Number(ReadTimeout, cfg.readTimeoutMs) + Number(WriteTimeout, cfg.writeTimeoutMs)
    + Number(DefaultPriority, cfg.defaultPriority)
  }

  /** The other three. */
  function Caches(cfg: Config): seq<Update> {
    Number(CacheExpiry, cfg.cacheExpiryMs) + [Update(Name(CacheStrategy), Decimal(cfg.cacheStrategy))]
    + Number(DatalinkMaintenance, cfg.datalinkMaintenanceMs)
  }

  lemma {:induction false} ServicesInHalves(cfg: Config)
    ensures Updates(cfg, Services) == Timeouts(cfg) + Caches(cfg)
  {
    var d, f := Number(CacheExpiry, cfg.cacheExpiryMs), Number(DatalinkMaintenance, cfg.datalinkMaintenanceMs);
    Halves(Timeouts(cfg), d, [Update(Name(CacheStrategy), Decimal(cfg.cacheStrategy))], f);
  }

  lemma {:induction false} Halves(a: seq<Update>, b: seq<Update>, c: seq<Update>, d: seq<Update>)
    ensures a + b + c + d == a + (b + c + d)
  {
  }

  lemma {:induction false} TimeoutsAsked(cfg: Config, key: string)
    ensures IsTimeout(key) ==>
              AskedServices(cfg, key) == if key == "read_timeout_ms" then NonZero(cfg.readTimeoutMs)
                                         else if key == "write_timeout_ms" then NonZero(cfg.writeTimeoutMs)
                                         else NonZero(cfg.defaultPriority)
  {
  }

  lemma {:induction false} CachesAsked(cfg: Config, key: string)
    ensures IsCache(key) ==>
              AskedServices(cfg, key) == if key == "cache_expiry_ms" then NonZero(cfg.cacheExpiryMs)
                                         else if key == "cache_strategy" then Some(Decimal(cfg.cacheStrategy))
                                         else NonZero(cfg.datalinkMaintenanceMs)
  {
    assert "read_timeout_ms"[0] != "cache_expiry_ms"[0];
  }

  lemma {:induction false} TimeoutsAsk(cfg: Config, key: string)
    ensures ValueFor(Timeouts(cfg), key) == (if IsTimeout(key) then AskedServices(cfg, key) else None)
    ensures Count(Timeouts(cfg), key) <= (if IsTimeout(key) then 1 else 0)
  {
    NumberIsOne(ReadTimeout, cfg.readTimeoutMs, key);
    NumberIsOne(WriteTimeout, cfg.writeTimeoutMs, key);
    NumberIsOne(DefaultPriority, cfg.defaultPriority, key);
    assert "write_timeout_ms"[0] != "default_priority"[0];
    ThreeAsk(Number(ReadTimeout, cfg.readTimeoutMs), Number(WriteTimeout, cfg.writeTimeoutMs),
             Number(DefaultPriority, cfg.defaultPriority), "read_timeout_ms", "write_timeout_ms", "default_priority",
             NonZero(cfg.readTimeoutMs), NonZero(cfg.writeTimeoutMs), NonZero(cfg.defaultPriority), key);
    TimeoutsAsked(cfg, key);
  }

  lemma {:induction false} CachesAsk(cfg: Config, key: string)
    ensures ValueFor(Caches(cfg), key) == (if IsCache(key) then AskedServices(cfg, key) else None)
    ensures Count(Caches(cfg), key) <= (if IsCache(key) then 1 else 0)
  {
    NumberIsOne(CacheExpiry, cfg.cacheExpiryMs, key);
    OneUpdate(Update(Name(CacheStrategy), Decimal(cfg.cacheStrategy)), key);
    NumberIsOne(DatalinkMaintenance, cfg.datalinkMaintenanceMs, key);
    ThreeAsk(Number(CacheExpiry, cfg.cacheExpiryMs), [Update(Name(CacheStrategy), Decimal(cfg.cacheStrategy))],
             Number(DatalinkMaintenance, cfg.datalinkMaintenanceMs),
             "cache_expiry_ms", "cache_strategy", "datalink_maintenance_ms",
             NonZero(cfg.cacheExpiryMs), Some(Decimal(cfg.cacheStrategy)), NonZero(cfg.datalinkMaintenanceMs), key);
    CachesAsked(cfg, key);
  }

  lemma {:induction false} ServicesAsks(cfg: Config, key: string)
    ensures Asks(cfg, Services, key)
  {
    ServicesInHalves(cfg);
    TimeoutsAsk(cfg, key);
    CachesAsk(cfg, key);
    TimeoutOrCache(cfg, key);
    PartsOf(Timeouts(cfg), Caches(cfg), key);
  }

  lemma {:induction false} ConnectionAsks(cfg: Config, key: string)
    ensures Asks(cfg, Connection, key)
  {
    NumberIsOne(MaxReconnectAttempts, cfg.maxReconnectAttempts, key);
    NumberIsOne(ReconnectInterval, cfg.reconnectIntervalMs, key);
    PartsOf(Number(MaxReconnectAttempts, cfg.maxReconnectAttempts),
            Number(ReconnectInterval, cfg.reconnectIntervalMs), key);
  }

  lemma {:induction false} HotConfigAsks(cfg: Config, key: string)
    ensures Asks(cfg, HotConfig, key)
  {
    NumberIsOne(PollingInterval, cfg.hotConfigPollingMs, key);
  }

  /** In every section, for every text as a key. */
  lemma {:induction false} UpdatesAreAsked(cfg: Config, section: Section, key: string)
    ensures Asks(cfg, section, key)
  {
    match section
    case Discovery => DiscoveryAsks(cfg, key);
    case LocalDevice => LocalDeviceAsks(cfg, key);
    case Network => NetworkAsks(cfg, key);
    case Services => ServicesAsks(cfg, key);
    case Connection => ConnectionAsks(cfg, key);
    case HotConfig => HotConfigAsks(cfg, key);
    case _ =>
  }

  // ---------------------------------------------------------------------------------------------
  // A line that holds one key

  /** The line holds none of the keys but this one. */
  predicate NoOther(line: string, keys: seq<string>, key: string) {
    forall k :: k in keys && k != key ==> Parse(line, k).None?
  }

  lemma {:induction false} CountZero(ups: seq<Update>, key: string)
    ensures Count(ups, key) == 0 ==> forall b :: 0 <= b < |ups| ==> ups[b].key != key
  {
    if ups != [] {
      CountZero(ups[1..], key);
      assert forall b :: 1 <= b < |ups| ==> ups[b] == ups[1..][b - 1];
    }
  }

  lemma {:induction false} ValueAt(ups: seq<Update>, key: string) returns (a: nat)
    requires ValueFor(ups, key).Some? && Count(ups, key) <= 1
    ensures a < |ups| && ups[a] == Update(key, ValueFor(ups, key).value)
    ensures forall b :: 0 <= b < |ups| && b != a ==> ups[b].key != key
  {
    if ups[0].key == key {
      a := 0;
      CountZero(ups[1..], key);
      assert forall b :: 1 <= b < |ups| ==> ups[b] == ups[1..][b - 1];
    } else {
      var rest := ValueAt(ups[1..], key);
      a := rest + 1;
      assert forall b :: 1 <= b < |ups| ==> ups[b] == ups[1..][b - 1];
    }
  }

  lemma {:induction false} NoneFor(ups: seq<Update>, key: string)
    requires ValueFor(ups, key).None?
    ensures forall b :: 0 <= b < |ups| ==> ups[b].key != key
  {
    if ups != [] {
      NoneFor(ups[1..], key);
      assert forall b :: 1 <= b < |ups| ==> ups[b] == ups[1..][b - 1];
    }
  }

  ghost predicate KeysAmong(ups: seq<Update>, keys: seq<string>) {
    forall b :: 0 <= b < |ups| ==> ups[b].key in keys
  }

  lemma {:induction false} AskedKeys(cfg: Config, section: Section, key: string)
    requires Asked(cfg, section, key).Some?
    ensures key in Keys(section)
  {
    match section
    case Services => ServicesKeys(cfg, key);
    case _ =>
  }

  lemma {:induction false} ServicesKeys(cfg: Config, key: string)
    requires AskedServices(cfg, key).Some?
    ensures key in Keys(Services)
  {
    var keys := Keys(Services);
    assert keys[0] == "read_timeout_ms" && keys[1] == "write_timeout_ms" && keys[2] == "default_priority";
    assert keys[3] == "cache_expiry_ms" && keys[4] == "cache_strategy" && keys[5] == "datalink_maintenance_ms";
  }

  lemma {:induction false} UpdatesKeysAmong(cfg: Config, section: Section)
    ensures KeysAmong(Updates(cfg, section), Keys(section))
  {
    var ups := Updates(cfg, section);
    forall b | 0 <= b < |ups|
      ensures ups[b].key in Keys(section)
    {
      UpdatesAreAsked(cfg, section, ups[b].key);
      if ValueFor(ups, ups[b].key).None? {
        NoneFor(ups, ups[b].key);
      } else {
        AskedKeys(cfg, section, ups[b].key);
      }
    }
  }

  /** What the updates of a section make of a line that holds this key and no other. */
  lemma {:induction false} OneKeyIsUpdated(line: string, ups: seq<Update>, keys: seq<string>, key: string)
    requires KeysAmong(ups, keys) && Count(ups, key) <= 1 && Parse(line, key).Some? && NoOther(line, keys, key)
    requires ValueFor(ups, key).Some? ==> NoOther(Put(line, key, ValueFor(ups, key).value).value, keys, key)
    ensures UpdateAll(line, ups)
         == match ValueFor(ups, key)
            case Some(v) => Put(line, key, v).value
            case None => line
  {
    if ValueFor(ups, key).Some? {
      var a := ValueAt(ups, key);
      var line' := UpdateOne(line, ups[a]);
      assert line' == Put(line, key, ValueFor(ups, key).value).value;
      OneKeyOneChange(line, ups, a, line');
    } else {
      NoneFor(ups, key);
      NoKeyNoChange(line, ups);
    }
  }

  // ---------------------------------------------------------------------------------------------
  // What is written

  /** A setting's line: it holds one key of the section its header leads to, before and after the update. */
  predicate IsSettingLine(lines: seq<string>, n: nat, cfg: Config, section: Section, key: string) {
    && n < |lines| && HeaderAt(lines, n, "") == HeaderOf(section) && key in Keys(section)
    && Parse(lines[n], key).Some? && NoOther(lines[n], Keys(section), key)
    && (Asked(cfg, section, key).Some? ==>
          NoOther(Put(lines[n], key, Asked(cfg, section, key).value).value, Keys(section), key))
  }

  lemma {:induction false} HeadersDiffer(a: Section, b: Section)
    requires HeaderOf(a) == HeaderOf(b)
    ensures a == b
  {
    assert |HeaderOf(a)| == |HeaderOf(b)|;
    assert HeaderOf(a) != "" ==> HeaderOf(a)[0] == HeaderOf(b)[0];
  }

  /**
   In every file a setting's line gets the text of its own field under its own key, which reads back unless a text in it
   holds '#'; and stays byte for byte when the field is 0 or empty.
   */
  lemma {:induction false} SettingIsWritten(lines: seq<string>, n: nat, cfg: Config, section: Section, key: string)
    requires IsSettingLine(lines, n, cfg, section, key)
    ensures var line' := UpdateLines(lines, NoSection, LayoutOf(cfg))[n];
            match Asked(cfg, section, key)
            case Some(v) => Some(line') == Put(lines[n], key, v) && (Get(line', key) == Some(v) <==> '#' !in v)
            case None => line' == lines[n]
  {
    var layout := LayoutOf(cfg);
    SectionIsHeader(lines, n, NoSection, layout);
    HeadersDiffer(SectionAt(lines, n, NoSection, layout), section);
    UpdatesAreAsked(cfg, section, key);
    UpdatesKeysAmong(cfg, section);
    OneKeyIsUpdated(lines[n], Updates(cfg, section), Keys(section), key);
    LineAt(lines, NoSection, layout, n);
    if Asked(cfg, section, key).Some? {
      PutGet(lines[n], key, Asked(cfg, section, key).value);
    }
  }
}
