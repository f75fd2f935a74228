/** A file that `config_update` has written, read by the loader, gives the configuration back. */
module ConfigLoads {
  import opened Prelude
  import opened Text
  import opened Yaml
  import opened BacnetConfig
  import opened BacnetLoader
  import opened BacnetSettings
  import opened Scalars
  import opened ConfigLine
  import Update = ConfigFile
  import opened ConfigSettings

  /** A text for each key of each section. */
  type Texts = (Update.Section, string) -> string

  function PairsOf(section: Update.Section, keys: seq<string>, texts: Texts): Entries {
    if keys == [] then Nil
    else Entry(keys[0], Leaf(texts(section, keys[0])), PairsOf(section, keys[1..], texts))
  }

  lemma {:induction false} LastOfPairs(section: Update.Section, keys: seq<string>, texts: Texts, key: string)
    ensures LastOf(PairsOf(section, keys, texts), key) == if key in keys then Some(texts(section, key)) else None
  {
    if keys != [] {
      LastOfPairs(section, keys[1..], texts, key);
    }
  }

  /** The sections in a file, with the names of their blocks. */
  datatype Named = Named(block: string, section: Update.Section)

  const NAMED: seq<Named> :=
    [ Named("discovery", Update.Discovery), Named("local_device", Update.LocalDevice), Named("network", Update.Network),
      Named("services", Update.Services), Named("connection", Update.Connection),
      Named("hot_config", Update.HotConfig) ]

  function BlocksOf(named: seq<Named>, texts: Texts): Entries {
    if named == [] then Nil
    else
      Entry(named[0].block, Mapping(PairsOf(named[0].section, Keys(named[0].section), texts)),
            BlocksOf(named[1..], texts))
  }

  predicate DifferentNames(named: seq<Named>) {
    forall i, j :: 0 <= i < |named| && 0 <= j < |named| && named[i].block == named[j].block ==> i == j
  }

  lemma {:induction false} NoBlock(named: seq<Named>, texts: Texts, block: string, key: string)
    requires forall i :: 0 <= i < |named| ==> named[i].block != block
    ensures LastIn(BlocksOf(named, texts), block, key) == None
  {
    if named != [] {
      NoBlock(named[1..], texts, block, key);
    }
  }

  lemma {:induction false} LastOfBlocks(named: seq<Named>, texts: Texts, n: nat, key: string)
    requires DifferentNames(named) && n < |named|
    ensures LastIn(BlocksOf(named, texts), named[n].block, key)
         == if key in Keys(named[n].section) then Some(texts(named[n].section, key)) else None
    decreases |named|
  {
    if n == 0 {
      assert forall i :: 0 <= i < |named[1..]| ==> named[1..][i] == named[i + 1];
      NoBlock(named[1..], texts, named[0].block, key);
      LastOfPairs(named[0].section, Keys(named[0].section), texts, key);
    } else {
      assert forall i :: 0 <= i < |named[1..]| ==> named[1..][i] == named[i + 1];
      LastOfBlocks(named[1..], texts, n - 1, key);
    }
  }

  // ---------------------------------------------------------------------------------------------
  // The document is well formed

  predicate PlainKey(key: string) {
    key != "" && SubSection(key).None?
  }

  lemma {:induction false} KeysArePlain(section: Update.Section, key: string)
    requires key in Keys(section)
    ensures PlainKey(key)
  {
    match section
    case Services => ServicesKeyIsPlain(key);
    case Discovery => DiscoveryKeyIsPlain(key);
    case _ =>
  }

  lemma {:induction false} ServicesKeyIsPlain(key: string)
    requires key in Keys(Update.Services)
    ensures PlainKey(key)
  {
  }

  lemma {:induction false} DiscoveryKeyIsPlain(key: string)
    requires key in Keys(Update.Discovery)
    ensures PlainKey(key)
  {
  }

  lemma {:induction false} PairsAreScalar(section: Update.Section, keys: seq<string>, texts: Texts)
    requires forall key :: key in keys ==> PlainKey(key)
    ensures ScalarPairs(PairsOf(section, keys, texts))
  {
    if keys != [] {
      assert PlainKey(keys[0]);
      PairsAreScalar(section, keys[1..], texts);
    }
  }

  lemma {:induction false} BlocksAreBlocks(named: seq<Named>, texts: Texts)
    requires forall n :: 0 <= n < |named| ==> SubSection(named[n].block).Some?
    ensures Blocks(BlocksOf(named, texts))
  {
    if named != [] {
      forall key | key in Keys(named[0].section)
        ensures PlainKey(key)
      {
        KeysArePlain(named[0].section, key);
      }
      PairsAreScalar(named[0].section, Keys(named[0].section), texts);
      assert SubSection(named[0].block).Some?;
      BlocksAreBlocks(named[1..], texts);
    }
  }

  lemma {:induction false} NamesAreBlocks()
    ensures DifferentNames(NAMED)
    ensures forall n :: 0 <= n < |NAMED| ==> SubSection(NAMED[n].block).Some?
  {
  }

  // ---------------------------------------------------------------------------------------------
  // What is loaded from the texts

  /** The configuration loaded from the texts. */
  function LoadedFrom(texts: Texts): Config {
    Loaded(Doc(Nil, Nil, BlocksOf(NAMED, texts), Nil, Nil))
  }

  /** The text given for a key, in the document of the texts. */
  function Given(texts: Texts, block: string, key: string): Option<string> {
    LastIn(BlocksOf(NAMED, texts), block, key)
  }

  lemma {:induction false} GivenIs(texts: Texts, n: nat, key: string)
    requires n < |NAMED|
    ensures Given(texts, NAMED[n].block, key)
         == if key in Keys(NAMED[n].section) then Some(texts(NAMED[n].section, key)) else None
  {
    NamesAreBlocks();
    LastOfBlocks(NAMED, texts, n, key);
  }

  lemma {:induction false} NoMstp(texts: Texts, key: string)
    ensures Given(texts, "mstp", key) == None
  {
    MstpIsNotNamed();
    NoBlock(NAMED, texts, "mstp", key);
  }

  lemma {:induction false} MstpIsNotNamed()
    ensures forall n :: 0 <= n < |NAMED| ==> NAMED[n].block != "mstp"
  {
  }

  lemma {:induction false} DocIsLoaded(texts: Texts)
    ensures var blocks := BlocksOf(NAMED, texts);
            && Blocks(blocks) && Nameless(FlattenEntries(Nil)) && Harmless(Nil, Nil) && PairsBehind(Nil)
  {
    NamesAreBlocks();
    BlocksAreBlocks(NAMED, texts);
    PairsAreHarmless(Nil, Nil);
  }

  lemma {:induction false} LoadedIsBlocks(texts: Texts)
    ensures LoadedFrom(texts) == Walk(BlocksOf(NAMED, texts), Bacnet, DEFAULTS)
  {
    DocIsLoaded(texts);
    LoaderIsWalk(BlocksOf(NAMED, texts));
  }

  /** A setting is read from its text. */
  lemma {:induction false} FieldFrom<T(!new)>(
    texts: Texts, n: nat, section: Section, key: string, get: Config -> T, read: string -> T)
    requires n < |NAMED| && key in Keys(NAMED[n].section)
    requires Names(NAMED[n].block, section) && Decides(section, key, get, read)
    ensures get(LoadedFrom(texts)) == read(texts(NAMED[n].section, key))
  {
    DocIsLoaded(texts);
    LoadedIsBlocks(texts);
    GivenIs(texts, n, key);
    SettingOfBlocks(BlocksOf(NAMED, texts), DEFAULTS, NAMED[n].block, section, key, get, read);
  }

  lemma {:induction false} MstpStays(texts: Texts)
    ensures var c := LoadedFrom(texts);
            && c.mstpPort == "" && c.mstpBaud == 38400 && c.mstpMac == 1 && c.mstpMaxMaster == 127
            && c.mstpMaxFrames == 1
  {
    DocIsLoaded(texts);
    LoadedIsBlocks(texts);
    MstpAfterWalk(BlocksOf(NAMED, texts), DEFAULTS);
    NoMstp(texts, "port");
    NoMstp(texts, "baud_rate");
    NoMstp(texts, "mac_address");
    NoMstp(texts, "max_master");
    NoMstp(texts, "max_info_frames");
  }

  lemma {:induction false} EnabledIsNoKey()
    ensures "enabled" !in Keys(Update.HotConfig)
  {
    assert |"enabled"| != |"polling_interval_ms"|;
  }

  lemma {:induction false} EnabledStays(texts: Texts)
    ensures LoadedFrom(texts).hotConfigEnabled == 1
  {
    DocIsLoaded(texts);
    LoadedIsBlocks(texts);
    BlockNames();
    HotConfigEnabledDecides();
    SettingOfBlocks(BlocksOf(NAMED, texts), DEFAULTS, "hot_config", HotConfig, "enabled",
                    (c: Config) => c.hotConfigEnabled, BacnetSettings.Flag());
    EnabledIsNoKey();
    GivenIs(texts, 5, "enabled");
  }

  // ---------------------------------------------------------------------------------------------
  // What has been written is loaded

  /** Every setting is asked for and fits its field; texts hold no '#'. */
  predicate Complete(cfg: Config) {
    && 0 < cfg.targetDeviceStart < 0x1_0000_0000 && 0 < cfg.targetDeviceEnd < 0x1_0000_0000
    && 0 < cfg.whoisRetry < 0x100 && 0 < cfg.responseTimeoutMs < 0x1_0000_0000
    && 0 < cfg.localInstanceId < 0x1_0000_0000 && 0 < cfg.localMaxApdu < 0x1_0000
    && 0 < |cfg.interfaceName| < 32 && '#' !in cfg.interfaceName
    && 0 < cfg.port < 0x1_0000
    && 0 < |cfg.broadcastAddress| < 48 && '#' !in cfg.broadcastAddress
    && 0 < cfg.readTimeoutMs < 0x1_0000_0000 && 0 < cfg.writeTimeoutMs < 0x1_0000_0000
    && 0 < cfg.defaultPriority < 0x100 && 0 < cfg.cacheExpiryMs < 0x1_0000_0000 && cfg.cacheStrategy < 0x100
    && 0 < cfg.datalinkMaintenanceMs < 0x1_0000_0000
    && 0 < cfg.maxReconnectAttempts < 0x100 && 0 < cfg.reconnectIntervalMs < 0x1_0000_0000
    && 0 < cfg.hotConfigPollingMs < 0x1_0000_0000
  }

  /** The scalar that a written value is: without its quotes, if it has some. */
  function ScalarOf(written: string): string {
    if |written| >= 2 && written[0] == '"' && written[|written| - 1] == '"' then written[1..|written| - 1] else written
  }

  lemma {:induction false} NumeralIsScalar(n: nat)
    ensures ScalarOf(Decimal(n)) == Decimal(n) && '#' !in Decimal(n)
  {
  }

  lemma {:induction false} QuotedIsScalar(text: string)
    ensures ScalarOf("\"" + text + "\"") == text
  {
  }

  /** The texts are those that the configuration asks for. */
  ghost predicate AreAsked(texts: Texts, cfg: Config) {
    forall section, key :: key in Keys(section) ==>
      Asked(cfg, section, key).Some? && texts(section, key) == ScalarOf(Asked(cfg, section, key).value)
  }

  lemma {:induction false} DiscoveryTexts(texts: Texts, cfg: Config)
    requires Complete(cfg) && AreAsked(texts, cfg)
    ensures texts(Update.Discovery, "target_device_start") == Decimal(cfg.targetDeviceStart)
    ensures texts(Update.Discovery, "target_device_end") == Decimal(cfg.targetDeviceEnd)
    ensures texts(Update.Discovery, "whois_retry") == Decimal(cfg.whoisRetry)
    ensures texts(Update.Discovery, "response_timeout_ms") == Decimal(cfg.responseTimeoutMs)
  {
    var keys := Keys(Update.Discovery);
    assert keys[0] == "target_device_start" && keys[1] == "target_device_end";
    assert keys[2] == "whois_retry" && keys[3] == "response_timeout_ms";
    NumeralIsScalar(cfg.targetDeviceStart);
    NumeralIsScalar(cfg.targetDeviceEnd);
    NumeralIsScalar(cfg.whoisRetry);
    NumeralIsScalar(cfg.responseTimeoutMs);
  }

  lemma {:induction false} DiscoveryBack(texts: Texts, cfg: Config)
    requires Complete(cfg)
    requires texts(Update.Discovery, "target_device_start") == Decimal(cfg.targetDeviceStart)
    requires texts(Update.Discovery, "target_device_end") == Decimal(cfg.targetDeviceEnd)
    requires texts(Update.Discovery, "whois_retry") == Decimal(cfg.whoisRetry)
    requires texts(Update.Discovery, "response_timeout_ms") == Decimal(cfg.responseTimeoutMs)
    ensures var c := LoadedFrom(texts);
            && c.targetDeviceStart == cfg.targetDeviceStart
            && c.targetDeviceEnd == cfg.targetDeviceEnd
            && c.whoisRetry == cfg.whoisRetry
            && c.responseTimeoutMs == cfg.responseTimeoutMs
  {
    BlockNames();
    var keys := Keys(Update.Discovery);
    assert keys[0] == "target_device_start" && keys[1] == "target_device_end";
    assert keys[2] == "whois_retry" && keys[3] == "response_timeout_ms";
    TargetDeviceStartDecides();
    FieldFrom(texts, 0, Discovery, "target_device_start", (c: Config) => c.targetDeviceStart, Wide());
    UnsignedReads(cfg.targetDeviceStart, 0x1_0000_0000);
    TargetDeviceEndDecides();
    FieldFrom(texts, 0, Discovery, "target_device_end", (c: Config) => c.targetDeviceEnd, Wide());
    UnsignedReads(cfg.targetDeviceEnd, 0x1_0000_0000);
    WhoisRetryDecides();
    FieldFrom(texts, 0, Discovery, "whois_retry", (c: Config) => c.whoisRetry, Narrow());
    UnsignedReads(cfg.whoisRetry, 0x100);
    ResponseTimeoutMsDecides();
    FieldFrom(texts, 0, Discovery, "response_timeout_ms", (c: Config) => c.responseTimeoutMs, Wide());
    UnsignedReads(cfg.responseTimeoutMs, 0x1_0000_0000);
  }

  lemma {:induction false} LocalDeviceTexts(texts: Texts, cfg: Config)
    requires Complete(cfg) && AreAsked(texts, cfg)
    ensures texts(Update.LocalDevice, "instance_id") == Decimal(cfg.localInstanceId)
    ensures texts(Update.LocalDevice, "max_apdu") == Decimal(cfg.localMaxApdu)
  {
    var keys := Keys(Update.LocalDevice);
    assert keys[0] == "instance_id" && keys[1] == "max_apdu";
    NumeralIsScalar(cfg.localInstanceId);
    NumeralIsScalar(cfg.localMaxApdu);
  }

  lemma {:induction false} LocalDeviceBack(texts: Texts, cfg: Config)
    requires Complete(cfg)
    requires texts(Update.LocalDevice, "instance_id") == Decimal(cfg.localInstanceId)
    requires texts(Update.LocalDevice, "max_apdu") == Decimal(cfg.localMaxApdu)
    ensures var c := LoadedFrom(texts);
            && c.localInstanceId == cfg.localInstanceId
            && c.localMaxApdu == cfg.localMaxApdu
  {
    BlockNames();
    var keys := Keys(Update.LocalDevice);
    assert keys[0] == "instance_id" && keys[1] == "max_apdu";
    LocalInstanceIdDecides();
    FieldFrom(texts, 1, LocalDevice, "instance_id", (c: Config) => c.localInstanceId, Wide());
    UnsignedReads(cfg.localInstanceId, 0x1_0000_0000);
    LocalMaxApduDecides();
    FieldFrom(texts, 1, LocalDevice, "max_apdu", (c: Config) => c.localMaxApdu, Short());
    UnsignedReads(cfg.localMaxApdu, 0x1_0000);
  }

  lemma {:induction false} NetworkTexts(texts: Texts, cfg: Config)
    requires Complete(cfg) && AreAsked(texts, cfg)
    ensures texts(Update.Network, "interface") == cfg.interfaceName
    ensures texts(Update.Network, "port") == Decimal(cfg.port)
    ensures texts(Update.Network, "broadcast_address") == cfg.broadcastAddress
  {
    var keys := Keys(Update.Network);
    assert keys[0] == "interface" && keys[1] == "port" && keys[2] == "broadcast_address";
    QuotedIsScalar(cfg.interfaceName);
    NumeralIsScalar(cfg.port);
    QuotedIsScalar(cfg.broadcastAddress);
  }

  lemma {:induction false} AddressesBack(texts: Texts, cfg: Config)
    requires Complete(cfg)
    requires texts(Update.Network, "interface") == cfg.interfaceName
    requires texts(Update.Network, "broadcast_address") == cfg.broadcastAddress
    ensures LoadedFrom(texts).interfaceName == cfg.interfaceName
    ensures LoadedFrom(texts).broadcastAddress == cfg.broadcastAddress
  {
    BlockNames();
    var keys := Keys(Update.Network);
    assert keys[0] == "interface" && keys[2] == "broadcast_address";
    InterfaceNameDecides();
    FieldFrom(texts, 2, Network, "interface", (c: Config) => c.interfaceName, Cut(32));
    BroadcastAddressDecides();
    FieldFrom(texts, 2, Network, "broadcast_address", (c: Config) => c.broadcastAddress, Cut(48));
  }

  lemma {:induction false} PortBack(texts: Texts, cfg: Config)
    requires Complete(cfg) && texts(Update.Network, "port") == Decimal(cfg.port)
    ensures LoadedFrom(texts).port == cfg.port
  {
    BlockNames();
    assert Keys(Update.Network)[1] == "port";
    PortDecides();
    FieldFrom(texts, 2, Network, "port", (c: Config) => c.port, Short());
    UnsignedReads(cfg.port, 0x1_0000);
  }

  lemma {:induction false} TimeoutTexts(texts: Texts, cfg: Config)
    requires Complete(cfg) && AreAsked(texts, cfg)
    ensures texts(Update.Services, "read_timeout_ms") == Decimal(cfg.readTimeoutMs)
    ensures texts(Update.Services, "write_timeout_ms") == Decimal(cfg.writeTimeoutMs)
    ensures texts(Update.Services, "default_priority") == Decimal(cfg.defaultPriority)
  {
    var keys := Keys(Update.Services);
    assert keys[0] == "read_timeout_ms" && keys[1] == "write_timeout_ms" && keys[2] == "default_priority";
    NumeralIsScalar(cfg.readTimeoutMs);
    NumeralIsScalar(cfg.writeTimeoutMs);
    NumeralIsScalar(cfg.defaultPriority);
  }

  lemma {:induction false} CacheTexts(texts: Texts, cfg: Config)
    requires Complete(cfg) && AreAsked(texts, cfg)
    ensures texts(Update.Services, "cache_expiry_ms") == Decimal(cfg.cacheExpiryMs)
    ensures texts(Update.Services, "cache_strategy") == Decimal(cfg.cacheStrategy)
    ensures texts(Update.Services, "datalink_maintenance_ms") == Decimal(cfg.datalinkMaintenanceMs)
  {
    var keys := Keys(Update.Services);
    assert keys[3] == "cache_expiry_ms" && keys[4] == "cache_strategy" && keys[5] == "datalink_maintenance_ms";
    NumeralIsScalar(cfg.cacheExpiryMs);
    NumeralIsScalar(cfg.cacheStrategy);
    NumeralIsScalar(cfg.datalinkMaintenanceMs);
  }

  lemma {:induction false} ServicesBack(texts: Texts, cfg: Config)
    requires Complete(cfg)
    requires texts(Update.Services, "read_timeout_ms") == Decimal(cfg.readTimeoutMs)
    requires texts(Update.Services, "write_timeout_ms") == Decimal(cfg.writeTimeoutMs)
    requires texts(Update.Services, "default_priority") == Decimal(cfg.defaultPriority)
    requires texts(Update.Services, "cache_expiry_ms") == Decimal(cfg.cacheExpiryMs)
    requires texts(Update.Services, "cache_strategy") == Decimal(cfg.cacheStrategy)
    requires texts(Update.Services, "datalink_maintenance_ms") == Decimal(cfg.datalinkMaintenanceMs)
    ensures var c := LoadedFrom(texts);
            && c.readTimeoutMs == cfg.readTimeoutMs
            && c.writeTimeoutMs == cfg.writeTimeoutMs
            && c.defaultPriority == cfg.defaultPriority
            && c.cacheExpiryMs == cfg.cacheExpiryMs
            && c.cacheStrategy == cfg.cacheStrategy
            && c.datalinkMaintenanceMs == cfg.datalinkMaintenanceMs
  {
    BlockNames();
    var keys := Keys(Update.Services);
    assert keys[0] == "read_timeout_ms" && keys[1] == "write_timeout_ms" && keys[2] == "default_priority";
    assert keys[3] == "cache_expiry_ms" && keys[4] == "cache_strategy" && keys[5] == "datalink_maintenance_ms";
    ReadTimeoutMsDecides();
    FieldFrom(texts, 3, Services, "read_timeout_ms", (c: Config) => c.readTimeoutMs, Positive(Wide(), 6000));
    UnsignedReads(cfg.readTimeoutMs, 0x1_0000_0000);
    WriteTimeoutMsDecides();
    FieldFrom(texts, 3, Services, "write_timeout_ms", (c: Config) => c.writeTimeoutMs, Positive(Wide(), 6000));
    UnsignedReads(cfg.writeTimeoutMs, 0x1_0000_0000);
    DefaultPriorityDecides();
    FieldFrom(texts, 3, Services, "default_priority", (c: Config) => c.defaultPriority, Positive(Narrow(), 8));
    UnsignedReads(cfg.defaultPriority, 0x100);
    CacheExpiryMsDecides();
    FieldFrom(texts, 3, Services, "cache_expiry_ms", (c: Config) => c.cacheExpiryMs, Wide());
    UnsignedReads(cfg.cacheExpiryMs, 0x1_0000_0000);
    CacheStrategyDecides();
    FieldFrom(texts, 3, Services, "cache_strategy", (c: Config) => c.cacheStrategy, Narrow());
    UnsignedReads(cfg.cacheStrategy, 0x100);
    DatalinkMaintenanceMsDecides();
    FieldFrom(texts, 3, Services, "datalink_maintenance_ms",
              (c: Config) => c.datalinkMaintenanceMs, Positive(Wide(), 1000));
    UnsignedReads(cfg.datalinkMaintenanceMs, 0x1_0000_0000);
  }

  lemma {:induction false} ConnectionTexts(texts: Texts, cfg: Config)
    requires Complete(cfg) && AreAsked(texts, cfg)
    ensures texts(Update.Connection, "max_reconnect_attempts") == Decimal(cfg.maxReconnectAttempts)
    ensures texts(Update.Connection, "reconnect_interval_ms") == Decimal(cfg.reconnectIntervalMs)
  {
    var keys := Keys(Update.Connection);
    assert keys[0] == "max_reconnect_attempts" && keys[1] == "reconnect_interval_ms";
    NumeralIsScalar(cfg.maxReconnectAttempts);
    NumeralIsScalar(cfg.reconnectIntervalMs);
  }

  lemma {:induction false} ConnectionBack(texts: Texts, cfg: Config)
    requires Complete(cfg)
    requires texts(Update.Connection, "max_reconnect_attempts") == Decimal(cfg.maxReconnectAttempts)
    requires texts(Update.Connection, "reconnect_interval_ms") == Decimal(cfg.reconnectIntervalMs)
    ensures var c := LoadedFrom(texts);
            && c.maxReconnectAttempts == cfg.maxReconnectAttempts
            && c.reconnectIntervalMs == cfg.reconnectIntervalMs
  {
    BlockNames();
    var keys := Keys(Update.Connection);
    assert keys[0] == "max_reconnect_attempts" && keys[1] == "reconnect_interval_ms";
    MaxReconnectAttemptsDecides();
    FieldFrom(texts, 4, Connection, "max_reconnect_attempts",
              (c: Config) => c.maxReconnectAttempts, Positive(Narrow(), 5));
    UnsignedReads(cfg.maxReconnectAttempts, 0x100);
    ReconnectIntervalMsDecides();
    FieldFrom(texts, 4, Connection, "reconnect_interval_ms",
              (c: Config) => c.reconnectIntervalMs, Positive(Wide(), 3000));
    UnsignedReads(cfg.reconnectIntervalMs, 0x1_0000_0000);
  }

  lemma {:induction false} HotConfigTexts(texts: Texts, cfg: Config)
    requires Complete(cfg) && AreAsked(texts, cfg)
    ensures texts(Update.HotConfig, "polling_interval_ms") == Decimal(cfg.hotConfigPollingMs)
  {
    var keys := Keys(Update.HotConfig);
    assert keys[0] == "polling_interval_ms";
    NumeralIsScalar(cfg.hotConfigPollingMs);
  }

  lemma {:induction false} HotConfigBack(texts: Texts, cfg: Config)
    requires Complete(cfg)
    requires texts(Update.HotConfig, "polling_interval_ms") == Decimal(cfg.hotConfigPollingMs)
    ensures var c := LoadedFrom(texts);
            && c.hotConfigPollingMs == cfg.hotConfigPollingMs
  {
    BlockNames();
    var keys := Keys(Update.HotConfig);
    assert keys[0] == "polling_interval_ms";
    HotConfigPollingMsDecides();
    FieldFrom(texts, 5, HotConfig, "polling_interval_ms", (c: Config) => c.hotConfigPollingMs, Positive(Wide(), 1000));
    UnsignedReads(cfg.hotConfigPollingMs, 0x1_0000_0000);
  }

  /** What a file says for each key: the value that is read back from the line that is given for it. */
  function Reading(lines: seq<string>, at_: (Update.Section, string) -> nat): Texts {
    (section, key) =>
      if at_(section, key) < |lines| then
        match Get(lines[at_(section, key)], key)
        case Some(value) => ScalarOf(value)
        case None => ""
      else ""
  }

  lemma {:induction false} DiscoveryIsAsked(cfg: Config, key: string)
    requires Complete(cfg) && key in Keys(Update.Discovery)
    ensures AskedDiscovery(cfg, key).Some? && '#' !in AskedDiscovery(cfg, key).value
  {
  }

  lemma {:induction false} LocalDeviceIsAsked(cfg: Config, key: string)
    requires Complete(cfg) && key in Keys(Update.LocalDevice)
    ensures AskedLocalDevice(cfg, key).Some? && '#' !in AskedLocalDevice(cfg, key).value
  {
  }

  lemma {:induction false} NetworkIsAsked(cfg: Config, key: string)
    requires Complete(cfg) && key in Keys(Update.Network)
    ensures AskedNetwork(cfg, key).Some? && '#' !in AskedNetwork(cfg, key).value
  {
  }

  lemma {:induction false} ServicesIsAsked(cfg: Config, key: string)
    requires Complete(cfg) && key in Keys(Update.Services)
    ensures AskedServices(cfg, key).Some? && '#' !in AskedServices(cfg, key).value
  {
  }

  lemma {:induction false} ConnectionIsAsked(cfg: Config, key: string)
    requires Complete(cfg) && key in Keys(Update.Connection)
    ensures AskedConnection(cfg, key).Some? && '#' !in AskedConnection(cfg, key).value
  {
  }

  lemma {:induction false} HotConfigIsAsked(cfg: Config, key: string)
    requires Complete(cfg) && key in Keys(Update.HotConfig)
    ensures AskedHotConfig(cfg, key).Some? && '#' !in AskedHotConfig(cfg, key).value
  {
  }

  lemma {:induction false} AllAreAsked(cfg: Config, section: Update.Section, key: string)
    requires Complete(cfg) && key in Keys(section)
    ensures Asked(cfg, section, key).Some? && '#' !in Asked(cfg, section, key).value
  {
    match section
    case Discovery => DiscoveryIsAsked(cfg, key);
    case LocalDevice => LocalDeviceIsAsked(cfg, key);
    case Network => NetworkIsAsked(cfg, key);
    case Services => ServicesIsAsked(cfg, key);
    case Connection => ConnectionIsAsked(cfg, key);
    case HotConfig => HotConfigIsAsked(cfg, key);
    case _ =>
  }

  lemma {:induction false} WrittenIsAsked(
    lines: seq<string>, at_: (Update.Section, string) -> nat, cfg: Config, section: Update.Section, key: string)
    requires IsSettingLine(lines, at_(section, key), cfg, section, key)
    requires Asked(cfg, section, key).Some? && '#' !in Asked(cfg, section, key).value
    ensures var lines' := Update.UpdateLines(lines, Update.NoSection, Update.LayoutOf(cfg));
            Reading(lines', at_)(section, key) == ScalarOf(Asked(cfg, section, key).value)
  {
    SettingIsWritten(lines, at_(section, key), cfg, section, key);
  }

  /**
   Take any file that has a line for each of the 18 settings, in whatever order and layout, with headers and other
   lines between them. After `config_update` with a configuration that gives every setting, the loader reads this very
   configuration from the file; what the file does not hold keeps its built-in value.
   */
  lemma {:induction false} WrittenSettingsLoad(
    lines: seq<string>, at_: (Update.Section, string) -> nat, cfg: Config)
    requires Complete(cfg)
    requires forall section, key :: key in Keys(section) ==>
               IsSettingLine(lines, at_(section, key), cfg, section, key)
    ensures var lines' := Update.UpdateLines(lines, Update.NoSection, Update.LayoutOf(cfg));
            LoadedFrom(Reading(lines', at_))
            == cfg.(mstpPort := "", mstpBaud := 38400, mstpMac := 1, mstpMaxMaster := 127, mstpMaxFrames := 1,
                    hotConfigEnabled := 1)
  {
    var lines' := Update.UpdateLines(lines, Update.NoSection, Update.LayoutOf(cfg));
    var texts := Reading(lines', at_);
    forall section, key | key in Keys(section)
      ensures Asked(cfg, section, key).Some? && texts(section, key) == ScalarOf(Asked(cfg, section, key).value)
    {
      AllAreAsked(cfg, section, key);
      WrittenIsAsked(lines, at_, cfg, section, key);
    }
    DiscoveryTexts(texts, cfg);
    DiscoveryBack(texts, cfg);
    LocalDeviceTexts(texts, cfg);
    LocalDeviceBack(texts, cfg);
    NetworkTexts(texts, cfg);
    AddressesBack(texts, cfg);
    PortBack(texts, cfg);
    TimeoutTexts(texts, cfg);
    CacheTexts(texts, cfg);
    ServicesBack(texts, cfg);
    ConnectionTexts(texts, cfg);
    ConnectionBack(texts, cfg);
    HotConfigTexts(texts, cfg);
    HotConfigBack(texts, cfg);
    MstpStays(texts);
    EnabledStays(texts);
  }
}
