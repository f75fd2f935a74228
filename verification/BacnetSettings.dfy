/** What each BACnet setting is after a document has been loaded, setting by setting. */
module BacnetSettings {
  import opened Prelude
  import opened Yaml
  import opened BacnetConfig
  import opened BacnetLoader
  import opened Scalars

  // ---------------------------------------------------------------------------------------------
  // The last text of a setting

  /** The text of the last pair with this key in the blocks of this name. */
  function LastIn(blocks: Entries, block: string, key: string): Option<string> {
    match blocks
    case Nil => None
    case Entry(name, value, rest) =>
      var later := LastIn(rest, block, key);
      if later.Some? then later
      else if name == block && value.Mapping? then LastOf(value.entries, key)
      else None
  }

  /** `atoi` in a field of 32, 16 or 8 bits. */
  function Wide(): string -> nat {
    text => Atoi(text) % 0x1_0000_0000
  }

  function Short(): string -> nat {
    text => Atoi(text) % 0x1_0000
  }

  function Narrow(): string -> nat {
    text => Atoi(text) % 0x100
  }

  /** The built-in value stands for 0. */
  function Positive(read: string -> nat, otherwise: nat): string -> nat {
    text => if read(text) > 0 then read(text) else otherwise
  }

  function Flag(): string -> int {
    text => ParseBool(text, 1)
  }

  // ---------------------------------------------------------------------------------------------
  // One setting

  /** Pairs with this key in this section decide the setting, and no other pair changes it. */
  ghost predicate Decides<T(!new)>(section: Section, key: string, get: Config -> T, read: string -> T) {
    forall cfg, s, k, text ::
      get(Assign(cfg, s, k, text)) == if s == section && k == key then read(text) else get(cfg)
  }

  /** Blocks of this name, and no others, are this section. */
  ghost predicate Names(block: string, section: Section) {
    forall name :: SubSection(name) == Some(section) <==> name == block
  }

  lemma {:induction false} SettingOfPairs<T(!new)>(
    pairs: Entries, s: Section, cfg: Config, section: Section, key: string, get: Config -> T, read: string -> T)
    requires ScalarPairs(pairs) && Decides(section, key, get, read)
    ensures get(Walk(pairs, s, cfg)) == if s == section then Chosen(LastOf(pairs, key), read, get(cfg)) else get(cfg)
    decreases pairs
  {
    match pairs
    case Nil =>
    case Entry(k, value, rest) =>
      SettingOfPairs(rest, s, Assign(cfg, s, k, value.text), section, key, get, read);
  }

  lemma {:induction false} SettingOfBlocks<T(!new)>(
    blocks: Entries, cfg: Config, block: string, section: Section, key: string, get: Config -> T, read: string -> T)
    requires Blocks(blocks) && Names(block, section) && Decides(section, key, get, read)
    ensures get(Walk(blocks, Bacnet, cfg)) == Chosen(LastIn(blocks, block, key), read, get(cfg))
    decreases blocks
  {
    match blocks
    case Nil =>
    case Entry(name, value, rest) =>
      var s := SubSection(name).value;
      SettingOfPairs(value.entries, s, cfg, section, key, get, read);
      SettingOfBlocks(rest, Walk(value.entries, s, cfg), block, section, key, get, read);
  }

  lemma {:induction false} BlockNames()
    ensures Names("discovery", Discovery) && Names("local_device", LocalDevice) && Names("network", Network)
    ensures Names("mstp", Mstp) && Names("services", Services) && Names("connection", Connection)
    ensures Names("hot_config", HotConfig)
  {
  }

  // ---------------------------------------------------------------------------------------------
  // The settings, section by section

  lemma {:induction false} TargetDeviceStartDecides()
    ensures Decides(Discovery, "target_device_start", (c: Config) => c.targetDeviceStart, Wide())
  {
    forall cfg: Config, s, k, text
      ensures Assign(cfg, s, k, text).targetDeviceStart
           == if s == Discovery && k == "target_device_start"
              then Wide()(text) else cfg.targetDeviceStart
    {
    }
  }

  lemma {:induction false} TargetDeviceEndDecides()
    ensures Decides(Discovery, "target_device_end", (c: Config) => c.targetDeviceEnd, Wide())
  {
    forall cfg: Config, s, k, text
      ensures Assign(cfg, s, k, text).targetDeviceEnd
           == if s == Discovery && k == "target_device_end"
              then Wide()(text) else cfg.targetDeviceEnd
    {
    }
  }

  lemma {:induction false} WhoisRetryDecides()
    ensures Decides(Discovery, "whois_retry", (c: Config) => c.whoisRetry, Narrow())
  {
    forall cfg: Config, s, k, text
      ensures Assign(cfg, s, k, text).whoisRetry
           == if s == Discovery && k == "whois_retry"
              then Narrow()(text) else cfg.whoisRetry
    {
    }
  }

  lemma {:induction false} ResponseTimeoutMsDecides()
    ensures Decides(Discovery, "response_timeout_ms", (c: Config) => c.responseTimeoutMs, Wide())
  {
    forall cfg: Config, s, k, text
      ensures Assign(cfg, s, k, text).responseTimeoutMs
           == if s == Discovery && k == "response_timeout_ms"
              then Wide()(text) else cfg.responseTimeoutMs
    {
    }
  }

  lemma {:induction false} LocalInstanceIdDecides()
    ensures Decides(LocalDevice, "instance_id", (c: Config) => c.localInstanceId, Wide())
  {
    forall cfg: Config, s, k, text
      ensures Assign(cfg, s, k, text).localInstanceId
           == if s == LocalDevice && k == "instance_id"
              then Wide()(text) else cfg.localInstanceId
    {
    }
  }

  lemma {:induction false} LocalMaxApduDecides()
    ensures Decides(LocalDevice, "max_apdu", (c: Config) => c.localMaxApdu, Short())
  {
    forall cfg: Config, s, k, text
      ensures Assign(cfg, s, k, text).localMaxApdu
           == if s == LocalDevice && k == "max_apdu"
              then Short()(text) else cfg.localMaxApdu
    {
    }
  }

  lemma {:induction false} InterfaceNameDecides()
    ensures Decides(Network, "interface", (c: Config) => c.interfaceName, Cut(32))
  {
    forall cfg: Config, s, k, text
      ensures Assign(cfg, s, k, text).interfaceName
           == if s == Network && k == "interface"
              then Cut(32)(text) else cfg.interfaceName
    {
    }
  }

  lemma {:induction false} PortDecides()
    ensures Decides(Network, "port", (c: Config) => c.port, Short())
  {
    forall cfg: Config, s, k, text
      ensures Assign(cfg, s, k, text).port == if s == Network && k == "port" then Short()(text) else cfg.port
    {
    }
  }

  lemma {:induction false} BroadcastAddressDecides()
    ensures Decides(Network, "broadcast_address", (c: Config) => c.broadcastAddress, Cut(48))
  {
    forall cfg: Config, s, k, text
      ensures Assign(cfg, s, k, text).broadcastAddress
           == if s == Network && k == "broadcast_address"
              then Cut(48)(text) else cfg.broadcastAddress
    {
    }
  }

  lemma {:induction false} MstpPortDecides()
    ensures Decides(Mstp, "port", (c: Config) => c.mstpPort, Cut(32))
  {
    forall cfg: Config, s, k, text
      ensures Assign(cfg, s, k, text).mstpPort == if s == Mstp && k == "port" then Cut(32)(text) else cfg.mstpPort
    {
    }
  }

  lemma {:induction false} MstpBaudDecides()
    ensures Decides(Mstp, "baud_rate", (c: Config) => c.mstpBaud, Wide())
  {
    forall cfg: Config, s, k, text
      ensures Assign(cfg, s, k, text).mstpBaud == if s == Mstp && k == "baud_rate" then Wide()(text) else cfg.mstpBaud
    {
    }
  }

  lemma {:induction false} MstpMacDecides()
    ensures Decides(Mstp, "mac_address", (c: Config) => c.mstpMac, Narrow())
  {
    forall cfg: Config, s, k, text
      ensures Assign(cfg, s, k, text).mstpMac == if s == Mstp && k == "mac_address" then Narrow()(text) else cfg.mstpMac
    {
    }
  }

  lemma {:induction false} MstpMaxMasterDecides()
    ensures Decides(Mstp, "max_master", (c: Config) => c.mstpMaxMaster, Narrow())
  {
    forall cfg: Config, s, k, text
      ensures Assign(cfg, s, k, text).mstpMaxMaster
           == if s == Mstp && k == "max_master"
              then Narrow()(text) else cfg.mstpMaxMaster
    {
    }
  }

  lemma {:induction false} MstpMaxFramesDecides()
    ensures Decides(Mstp, "max_info_frames", (c: Config) => c.mstpMaxFrames, Narrow())
  {
    forall cfg: Config, s, k, text
      ensures Assign(cfg, s, k, text).mstpMaxFrames
           == if s == Mstp && k == "max_info_frames"
              then Narrow()(text) else cfg.mstpMaxFrames
    {
    }
  }

  lemma {:induction false} ReadTimeoutMsDecides()
    ensures Decides(Services, "read_timeout_ms", (c: Config) => c.readTimeoutMs, Positive(Wide(), 6000))
  {
    forall cfg: Config, s, k, text
      ensures Assign(cfg, s, k, text).readTimeoutMs
           == if s == Services && k == "read_timeout_ms"
              then Positive(Wide(), 6000)(text) else cfg.readTimeoutMs
    {
    }
  }

  lemma {:induction false} WriteTimeoutMsDecides()
    ensures Decides(Services, "write_timeout_ms", (c: Config) => c.writeTimeoutMs, Positive(Wide(), 6000))
  {
    forall cfg: Config, s, k, text
      ensures Assign(cfg, s, k, text).writeTimeoutMs
           == if s == Services && k == "write_timeout_ms"
              then Positive(Wide(), 6000)(text) else cfg.writeTimeoutMs
    {
    }
  }

  lemma {:induction false} DefaultPriorityDecides()
    ensures Decides(Services, "default_priority", (c: Config) => c.defaultPriority, Positive(Narrow(), 8))
  {
    forall cfg: Config, s, k, text
      ensures Assign(cfg, s, k, text).defaultPriority
           == if s == Services && k == "default_priority"
              then Positive(Narrow(), 8)(text) else cfg.defaultPriority
    {
    }
  }

  lemma {:induction false} CacheExpiryMsDecides()
    ensures Decides(Services, "cache_expiry_ms", (c: Config) => c.cacheExpiryMs, Wide())
  {
    forall cfg: Config, s, k, text
      ensures Assign(cfg, s, k, text).cacheExpiryMs
           == if s == Services && k == "cache_expiry_ms"
              then Wide()(text) else cfg.cacheExpiryMs
    {
    }
  }

  lemma {:induction false} CacheStrategyDecides()
    ensures Decides(Services, "cache_strategy", (c: Config) => c.cacheStrategy, Narrow())
  {
    forall cfg: Config, s, k, text
      ensures Assign(cfg, s, k, text).cacheStrategy
           == if s == Services && k == "cache_strategy"
              then Narrow()(text) else cfg.cacheStrategy
    {
    }
  }

  lemma {:induction false} DatalinkMaintenanceMsDecides()
    ensures Decides(Services, "datalink_maintenance_ms", (c: Config) => c.datalinkMaintenanceMs, Positive(Wide(), 1000))
  {
    forall cfg: Config, s, k, text
      ensures Assign(cfg, s, k, text).datalinkMaintenanceMs
           == if s == Services && k == "datalink_maintenance_ms"
              then Positive(Wide(), 1000)(text) else cfg.datalinkMaintenanceMs
    {
    }
  }

  lemma {:induction false} MaxReconnectAttemptsDecides()
    ensures Decides(Connection, "max_reconnect_attempts", (c: Config) => c.maxReconnectAttempts, Positive(Narrow(), 5))
  {
    forall cfg: Config, s, k, text
      ensures Assign(cfg, s, k, text).maxReconnectAttempts
           == if s == Connection && k == "max_reconnect_attempts"
              then Positive(Narrow(), 5)(text) else cfg.maxReconnectAttempts
    {
    }
  }

  lemma {:induction false} ReconnectIntervalMsDecides()
    ensures Decides(Connection, "reconnect_interval_ms", (c: Config) => c.reconnectIntervalMs, Positive(Wide(), 3000))
  {
    forall cfg: Config, s, k, text
      ensures Assign(cfg, s, k, text).reconnectIntervalMs
           == if s == Connection && k == "reconnect_interval_ms"
              then Positive(Wide(), 3000)(text) else cfg.reconnectIntervalMs
    {
    }
  }

  lemma {:induction false} HotConfigEnabledDecides()
    ensures Decides(HotConfig, "enabled", (c: Config) => c.hotConfigEnabled, Flag())
  {
    forall cfg: Config, s, k, text
      ensures Assign(cfg, s, k, text).hotConfigEnabled
           == if s == HotConfig && k == "enabled"
              then Flag()(text) else cfg.hotConfigEnabled
    {
    }
  }

  lemma {:induction false} HotConfigPollingMsDecides()
    ensures Decides(HotConfig, "polling_interval_ms", (c: Config) => c.hotConfigPollingMs, Positive(Wide(), 1000))
  {
    forall cfg: Config, s, k, text
      ensures Assign(cfg, s, k, text).hotConfigPollingMs
           == if s == HotConfig && k == "polling_interval_ms"
              then Positive(Wide(), 1000)(text) else cfg.hotConfigPollingMs
    {
    }
  }

  lemma {:induction false} DiscoveryAfterWalk(blocks: Entries, cfg: Config)
    requires Blocks(blocks)
    ensures var c := Walk(blocks, Bacnet, cfg);
            && c.targetDeviceStart
               == Chosen(LastIn(blocks, "discovery", "target_device_start"), Wide(), cfg.targetDeviceStart)
            && c.targetDeviceEnd
               == Chosen(LastIn(blocks, "discovery", "target_device_end"), Wide(), cfg.targetDeviceEnd)
            && c.whoisRetry == Chosen(LastIn(blocks, "discovery", "whois_retry"), Narrow(), cfg.whoisRetry)
            && c.responseTimeoutMs
               == Chosen(LastIn(blocks, "discovery", "response_timeout_ms"), Wide(), cfg.responseTimeoutMs)
  {
    BlockNames();
    TargetDeviceStartDecides();
    SettingOfBlocks(blocks, cfg, "discovery", Discovery, "target_device_start",
                    (c: Config) => c.targetDeviceStart, Wide());
    TargetDeviceEndDecides();
    SettingOfBlocks(blocks, cfg, "discovery", Discovery, "target_device_end", (c: Config) => c.targetDeviceEnd, Wide());
    WhoisRetryDecides();
    SettingOfBlocks(blocks, cfg, "discovery", Discovery, "whois_retry", (c: Config) => c.whoisRetry, Narrow());
    ResponseTimeoutMsDecides();
    SettingOfBlocks(blocks, cfg, "discovery", Discovery, "response_timeout_ms",
                    (c: Config) => c.responseTimeoutMs, Wide());
  }

  lemma {:induction false} LocalDeviceAfterWalk(blocks: Entries, cfg: Config)
    requires Blocks(blocks)
    ensures var c := Walk(blocks, Bacnet, cfg);
            && c.localInstanceId == Chosen(LastIn(blocks, "local_device", "instance_id"), Wide(), cfg.localInstanceId)
            && c.localMaxApdu == Chosen(LastIn(blocks, "local_device", "max_apdu"), Short(), cfg.localMaxApdu)
  {
    BlockNames();
    LocalInstanceIdDecides();
    SettingOfBlocks(blocks, cfg, "local_device", LocalDevice, "instance_id", (c: Config) => c.localInstanceId, Wide());
    LocalMaxApduDecides();
    SettingOfBlocks(blocks, cfg, "local_device", LocalDevice, "max_apdu", (c: Config) => c.localMaxApdu, Short());
  }

  lemma {:induction false} NetworkAfterWalk(blocks: Entries, cfg: Config)
    requires Blocks(blocks)
    ensures var c := Walk(blocks, Bacnet, cfg);
            && c.interfaceName == Chosen(LastIn(blocks, "network", "interface"), Cut(32), cfg.interfaceName)
            && c.port == Chosen(LastIn(blocks, "network", "port"), Short(), cfg.port)
            && c.broadcastAddress
               == Chosen(LastIn(blocks, "network", "broadcast_address"), Cut(48), cfg.broadcastAddress)
  {
    BlockNames();
    InterfaceNameDecides();
    SettingOfBlocks(blocks, cfg, "network", Network, "interface", (c: Config) => c.interfaceName, Cut(32));
    PortDecides();
    SettingOfBlocks(blocks, cfg, "network", Network, "port", (c: Config) => c.port, Short());
    BroadcastAddressDecides();
    SettingOfBlocks(blocks, cfg, "network", Network, "broadcast_address", (c: Config) => c.broadcastAddress, Cut(48));
  }

  lemma {:induction false} MstpAfterWalk(blocks: Entries, cfg: Config)
    requires Blocks(blocks)
    ensures var c := Walk(blocks, Bacnet, cfg);
            && c.mstpPort == Chosen(LastIn(blocks, "mstp", "port"), Cut(32), cfg.mstpPort)
            && c.mstpBaud == Chosen(LastIn(blocks, "mstp", "baud_rate"), Wide(), cfg.mstpBaud)
            && c.mstpMac == Chosen(LastIn(blocks, "mstp", "mac_address"), Narrow(), cfg.mstpMac)
            && c.mstpMaxMaster == Chosen(LastIn(blocks, "mstp", "max_master"), Narrow(), cfg.mstpMaxMaster)
            && c.mstpMaxFrames == Chosen(LastIn(blocks, "mstp", "max_info_frames"), Narrow(), cfg.mstpMaxFrames)
  {
    BlockNames();
    MstpPortDecides();
    SettingOfBlocks(blocks, cfg, "mstp", Mstp, "port", (c: Config) => c.mstpPort, Cut(32));
    MstpBaudDecides();
    SettingOfBlocks(blocks, cfg, "mstp", Mstp, "baud_rate", (c: Config) => c.mstpBaud, Wide());
    MstpMacDecides();
    SettingOfBlocks(blocks, cfg, "mstp", Mstp, "mac_address", (c: Config) => c.mstpMac, Narrow());
    MstpMaxMasterDecides();
    SettingOfBlocks(blocks, cfg, "mstp", Mstp, "max_master", (c: Config) => c.mstpMaxMaster, Narrow());
    MstpMaxFramesDecides();
    SettingOfBlocks(blocks, cfg, "mstp", Mstp, "max_info_frames", (c: Config) => c.mstpMaxFrames, Narrow());
  }

  lemma {:induction false} ServicesAfterWalk(blocks: Entries, cfg: Config)
    requires Blocks(blocks)
    ensures var c := Walk(blocks, Bacnet, cfg);
            && c.readTimeoutMs
               == Chosen(LastIn(blocks, "services", "read_timeout_ms"), Positive(Wide(), 6000), cfg.readTimeoutMs)
            && c.writeTimeoutMs
               == Chosen(LastIn(blocks, "services", "write_timeout_ms"), Positive(Wide(), 6000), cfg.writeTimeoutMs)
            && c.defaultPriority
               == Chosen(LastIn(blocks, "services", "default_priority"), Positive(Narrow(), 8), cfg.defaultPriority)
            && c.cacheExpiryMs == Chosen(LastIn(blocks, "services", "cache_expiry_ms"), Wide(), cfg.cacheExpiryMs)
            && c.cacheStrategy == Chosen(LastIn(blocks, "services", "cache_strategy"), Narrow(), cfg.cacheStrategy)
            && c.datalinkMaintenanceMs
               == Chosen(LastIn(blocks, "services", "datalink_maintenance_ms"), Positive(Wide(), 1000),
                         cfg.datalinkMaintenanceMs)
  {
    BlockNames();
    ReadTimeoutMsDecides();
    SettingOfBlocks(blocks, cfg, "services", Services, "read_timeout_ms",
                    (c: Config) => c.readTimeoutMs, Positive(Wide(), 6000));
    WriteTimeoutMsDecides();
    SettingOfBlocks(blocks, cfg, "services", Services, "write_timeout_ms",
                    (c: Config) => c.writeTimeoutMs, Positive(Wide(), 6000));
    DefaultPriorityDecides();
    SettingOfBlocks(blocks, cfg, "services", Services, "default_priority",
                    (c: Config) => c.defaultPriority, Positive(Narrow(), 8));
    CacheExpiryMsDecides();
    SettingOfBlocks(blocks, cfg, "services", Services, "cache_expiry_ms", (c: Config) => c.cacheExpiryMs, Wide());
    CacheStrategyDecides();
    SettingOfBlocks(blocks, cfg, "services", Services, "cache_strategy", (c: Config) => c.cacheStrategy, Narrow());
    DatalinkMaintenanceMsDecides();
    SettingOfBlocks(blocks, cfg, "services", Services, "datalink_maintenance_ms",
                    (c: Config) => c.datalinkMaintenanceMs, Positive(Wide(), 1000));
  }

  lemma {:induction false} ConnectionAfterWalk(blocks: Entries, cfg: Config)
    requires Blocks(blocks)
    ensures var c := Walk(blocks, Bacnet, cfg);
            && c.maxReconnectAttempts
               == Chosen(LastIn(blocks, "connection", "max_reconnect_attempts"), Positive(Narrow(), 5),
                         cfg.maxReconnectAttempts)
            && c.reconnectIntervalMs
               == Chosen(LastIn(blocks, "connection", "reconnect_interval_ms"), Positive(Wide(), 3000),
                         cfg.reconnectIntervalMs)
  {
    BlockNames();
    MaxReconnectAttemptsDecides();
    SettingOfBlocks(blocks, cfg, "connection", Connection, "max_reconnect_attempts",
                    (c: Config) => c.maxReconnectAttempts, Positive(Narrow(), 5));
    ReconnectIntervalMsDecides();
    SettingOfBlocks(blocks, cfg, "connection", Connection, "reconnect_interval_ms",
                    (c: Config) => c.reconnectIntervalMs, Positive(Wide(), 3000));
  }

  lemma {:induction false} HotConfigAfterWalk(blocks: Entries, cfg: Config)
    requires Blocks(blocks)
    ensures var c := Walk(blocks, Bacnet, cfg);
            && c.hotConfigEnabled == Chosen(LastIn(blocks, "hot_config", "enabled"), Flag(), cfg.hotConfigEnabled)
            && c.hotConfigPollingMs
               == Chosen(LastIn(blocks, "hot_config", "polling_interval_ms"), Positive(Wide(), 1000),
                         cfg.hotConfigPollingMs)
  {
    BlockNames();
    HotConfigEnabledDecides();
    SettingOfBlocks(blocks, cfg, "hot_config", HotConfig, "enabled", (c: Config) => c.hotConfigEnabled, Flag());
    HotConfigPollingMsDecides();
    SettingOfBlocks(blocks, cfg, "hot_config", HotConfig, "polling_interval_ms",
                    (c: Config) => c.hotConfigPollingMs, Positive(Wide(), 1000));
  }

  // ---------------------------------------------------------------------------------------------
  // The result of loading

  /**
   The configuration loaded from any document in which the entries before and beside bacnet are harmless and only pairs
   stand behind it, none of them behind a last mstp block: each setting is the last text given for it in the blocks of
   its section, converted, or its built-in value.
   */
  lemma {:induction false} LoadedSettings(
    before: Entries, beside: Entries, blocks: Entries, after: Entries, tail: Entries)
    requires Nameless(FlattenEntries(before)) && Nameless(FlattenEntries(beside)) && Harmless(before, beside)
    requires Blocks(blocks) && PairsBehind(after) && PairsBehind(tail)
    requires EndsInMstp(blocks) ==> after == tail == Nil
    ensures var c := Loaded(Doc(before, beside, blocks, after, tail));
            && c.targetDeviceStart == Chosen(LastIn(blocks, "discovery", "target_device_start"), Wide(), 5678)
            && c.targetDeviceEnd == Chosen(LastIn(blocks, "discovery", "target_device_end"), Wide(), 5678)
            && c.whoisRetry == Chosen(LastIn(blocks, "discovery", "whois_retry"), Narrow(), 3)
            && c.responseTimeoutMs == Chosen(LastIn(blocks, "discovery", "response_timeout_ms"), Wide(), 5000)
            && c.localInstanceId == Chosen(LastIn(blocks, "local_device", "instance_id"), Wide(), 4194303)
            && c.localMaxApdu == Chosen(LastIn(blocks, "local_device", "max_apdu"), Short(), 1476)
            && c.interfaceName == Chosen(LastIn(blocks, "network", "interface"), Cut(32), "")
            && c.port == Chosen(LastIn(blocks, "network", "port"), Short(), 47808)
            && c.broadcastAddress == Chosen(LastIn(blocks, "network", "broadcast_address"), Cut(48), "255.255.255.255")
            && c.mstpPort == Chosen(LastIn(blocks, "mstp", "port"), Cut(32), "")
            && c.mstpBaud == Chosen(LastIn(blocks, "mstp", "baud_rate"), Wide(), 38400)
            && c.mstpMac == Chosen(LastIn(blocks, "mstp", "mac_address"), Narrow(), 1)
            && c.mstpMaxMaster == Chosen(LastIn(blocks, "mstp", "max_master"), Narrow(), 127)
            && c.mstpMaxFrames == Chosen(LastIn(blocks, "mstp", "max_info_frames"), Narrow(), 1)
            && c.readTimeoutMs == Chosen(LastIn(blocks, "services", "read_timeout_ms"), Positive(Wide(), 6000), 6000)
            && c.writeTimeoutMs == Chosen(LastIn(blocks, "services", "write_timeout_ms"), Positive(Wide(), 6000), 6000)
            && c.defaultPriority == Chosen(LastIn(blocks, "services", "default_priority"), Positive(Narrow(), 8), 8)
            && c.cacheExpiryMs == Chosen(LastIn(blocks, "services", "cache_expiry_ms"), Wide(), 1000)
            && c.cacheStrategy == Chosen(LastIn(blocks, "services", "cache_strategy"), Narrow(), 0)
            && c.datalinkMaintenanceMs
               == Chosen(LastIn(blocks, "services", "datalink_maintenance_ms"), Positive(Wide(), 1000), 1000)
            && c.maxReconnectAttempts
               == Chosen(LastIn(blocks, "connection", "max_reconnect_attempts"), Positive(Narrow(), 5), 5)
            && c.reconnectIntervalMs
               == Chosen(LastIn(blocks, "connection", "reconnect_interval_ms"), Positive(Wide(), 3000), 3000)
            && c.hotConfigEnabled == Chosen(LastIn(blocks, "hot_config", "enabled"), Flag(), 1)
            && c.hotConfigPollingMs
               == Chosen(LastIn(blocks, "hot_config", "polling_interval_ms"), Positive(Wide(), 1000), 1000)
  {
    LoadedBehindBacnet(before, beside, blocks, after, tail);
    AppendPairs(after, tail);
    var cfg := Walk(blocks, Bacnet, DEFAULTS);
    if EndsInMstp(blocks) {
      assert Walk(Nil, Mstp, cfg) == cfg;
    } else {
      PairsBehindAreWalk(Loader(Root, "", cfg), Append(after, tail));
    }
    assert Loaded(Doc(before, beside, blocks, after, tail)) == cfg;
    DiscoveryAfterWalk(blocks, DEFAULTS);
    LocalDeviceAfterWalk(blocks, DEFAULTS);
    NetworkAfterWalk(blocks, DEFAULTS);
    MstpAfterWalk(blocks, DEFAULTS);
    ServicesAfterWalk(blocks, DEFAULTS);
    ConnectionAfterWalk(blocks, DEFAULTS);
    HotConfigAfterWalk(blocks, DEFAULTS);
  }
}
