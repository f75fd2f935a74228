/** What each setting of the MQTT client is after a document has been loaded, setting by setting. */
module MqttSettings {
  import opened Prelude
  import opened Text
  import opened Yaml
  import opened MqttLoader
  import opened Scalars

  // ---------------------------------------------------------------------------------------------
  // The last text of a setting

  /** The place a mapping under `key` opens: one of five names, in any case, or the place around it. */
  function Place(key: string, around: string): string {
    if EqNoCase(key, "protocols") then "protocols"
    else if EqNoCase(key, "mqtt") then "mqtt"
    else if EqNoCase(key, "authentication") then "authentication"
    else if EqNoCase(key, "settings") then "settings"
    else if EqNoCase(key, "topics") then "topics"
    else around
  }

  /** The text of the last pair with this name, in any case, in this place of the tree. */
  function LastText(node: Node, key: string, around: string, place: string, name: string): Option<string> {
    match node
    case Leaf(text) => if around == place && EqNoCase(key, name) then Some(text) else None
    case Mapping(entries) => LastIn(entries, Place(key, around), place, name)
  }

  function LastIn(entries: Entries, around: string, place: string, name: string): Option<string> {
    match entries
    case Nil => None
    case Entry(key, value, rest) =>
      var later := LastIn(rest, around, place, name);
      if later.Some? then later else LastText(value, key, around, place, name)
  }

  function PlaceOf(section: Section): string {
    match section
    case NoSection => ""
    case Protocols => "protocols"
    case Mqtt => "mqtt"
    case Authentication => "authentication"
    case Settings => "settings"
    case Topics => "topics"
  }

  lemma {:induction false} PlaceIsSection(key: string, parent: Section)
    ensures PlaceOf(SectionFor(key, parent)) == Place(key, PlaceOf(parent))
  {
  }

  // ---------------------------------------------------------------------------------------------
  // One setting

  /** Pairs with this name in this place decide the setting, and no other pair changes it. */
  ghost predicate Decides<T(!new)>(place: string, name: string, get: Config -> T, read: string -> T) {
    forall cfg, section, key, text ::
      get(Assign(cfg, section, key, text))
      == if PlaceOf(section) == place && EqNoCase(key, name) then read(text) else get(cfg)
  }

  lemma {:induction false} SettingOfNode<T(!new)>(
    node: Node, key: string, section: Section, cfg: Config,
    place: string, name: string, get: Config -> T, read: string -> T)
    requires Decides(place, name, get, read)
    ensures get(Walk(node, key, section, cfg))
         == Chosen(LastText(node, key, PlaceOf(section), place, name), read, get(cfg))
    decreases node
  {
    match node
    case Leaf(text) =>
    case Mapping(entries) =>
      PlaceIsSection(key, section);
      SettingOfEntries(entries, SectionFor(key, section), cfg, place, name, get, read);
  }

  lemma {:induction false} SettingOfEntries<T(!new)>(
    entries: Entries, section: Section, cfg: Config, place: string, name: string, get: Config -> T, read: string -> T)
    requires Decides(place, name, get, read)
    ensures get(WalkEntries(entries, section, cfg))
         == Chosen(LastIn(entries, PlaceOf(section), place, name), read, get(cfg))
    decreases entries
  {
    match entries
    case Nil =>
    case Entry(key, value, rest) =>
      SettingOfNode(value, key, section, cfg, place, name, get, read);
      SettingOfEntries(rest, section, Walk(value, key, section, cfg), place, name, get, read);
  }

  // ---------------------------------------------------------------------------------------------
  // The thirteen settings

  /** Names of the same length differ in their first letters. */
  lemma {:induction false} FirstLetters(key: string, a: string, b: string)
    requires EqNoCase(key, a) && EqNoCase(key, b) && a != "" && b != ""
    ensures Lower(a[0]) == Lower(b[0])
  {
    assert Lower(key[0]) == Lower(a[0]) == Lower(b[0]);
  }

  lemma {:induction false} NamesExclude(key: string)
    ensures !(EqNoCase(key, "username") && EqNoCase(key, "password"))
    ensures !(EqNoCase(key, "keepalive_interval_sec") && EqNoCase(key, "max_reconnect_attempts"))
    ensures !(EqNoCase(key, "keepalive_interval_sec") && EqNoCase(key, "reconnect_interval_sec"))
    ensures !(EqNoCase(key, "max_reconnect_attempts") && EqNoCase(key, "reconnect_interval_sec"))
  {
    if EqNoCase(key, "username") && EqNoCase(key, "password") {
      FirstLetters(key, "username", "password");
    }
    if EqNoCase(key, "keepalive_interval_sec") && EqNoCase(key, "max_reconnect_attempts") {
      FirstLetters(key, "keepalive_interval_sec", "max_reconnect_attempts");
    }
    if EqNoCase(key, "keepalive_interval_sec") && EqNoCase(key, "reconnect_interval_sec") {
      FirstLetters(key, "keepalive_interval_sec", "reconnect_interval_sec");
    }
    if EqNoCase(key, "max_reconnect_attempts") && EqNoCase(key, "reconnect_interval_sec") {
      FirstLetters(key, "max_reconnect_attempts", "reconnect_interval_sec");
    }
  }

  function Whole(): string -> int {
    text => Atoi(text)
  }

  function Flag(otherwise: int): string -> int {
    text => ParseBool(text, otherwise)
  }

  lemma {:induction false} BrokerDecides()
    ensures Decides("mqtt", "broker_uri", (c: Config) => c.broker, Cut(128))
  {
    forall cfg: Config, section, key, text
      ensures Assign(cfg, section, key, text).broker
           == if PlaceOf(section) == "mqtt" && EqNoCase(key, "broker_uri") then Cut(128)(text) else cfg.broker
    {
      NamesExclude(key);
    }
  }

  lemma {:induction false} ClientIdDecides()
    ensures Decides("mqtt", "client_id", (c: Config) => c.clientId, Cut(64))
  {
    forall cfg: Config, section, key, text
      ensures Assign(cfg, section, key, text).clientId
           == if PlaceOf(section) == "mqtt" && EqNoCase(key, "client_id") then Cut(64)(text) else cfg.clientId
    {
      NamesExclude(key);
    }
  }

  lemma {:induction false} UsernameDecides()
    ensures Decides("authentication", "username", (c: Config) => c.username, Cut(64))
  {
    forall cfg: Config, section, key, text
      ensures Assign(cfg, section, key, text).username
           == if PlaceOf(section) == "authentication" && EqNoCase(key, "username") then Cut(64)(text) else cfg.username
    {
      NamesExclude(key);
    }
  }

  lemma {:induction false} PasswordDecides()
    ensures Decides("authentication", "password", (c: Config) => c.password, Cut(64))
  {
    forall cfg: Config, section, key, text
      ensures Assign(cfg, section, key, text).password
           == if PlaceOf(section) == "authentication" && EqNoCase(key, "password") then Cut(64)(text) else cfg.password
    {
      NamesExclude(key);
    }
  }

  lemma {:induction false} PubTopicDecides()
    ensures Decides("topics", "publish_topic", (c: Config) => c.pubTopic, Cut(64))
  {
    forall cfg: Config, section, key, text
      ensures Assign(cfg, section, key, text).pubTopic
           == if PlaceOf(section) == "topics" && EqNoCase(key, "publish_topic") then Cut(64)(text) else cfg.pubTopic
    {
      NamesExclude(key);
    }
  }

  lemma {:induction false} SubTopicDecides()
    ensures Decides("topics", "subscribe_topic", (c: Config) => c.subTopic, Cut(64))
  {
    forall cfg: Config, section, key, text
      ensures Assign(cfg, section, key, text).subTopic
           == if PlaceOf(section) == "topics" && EqNoCase(key, "subscribe_topic") then Cut(64)(text) else cfg.subTopic
    {
      NamesExclude(key);
    }
  }

  lemma {:induction false} KeepaliveDecides()
    ensures Decides("settings", "keepalive_interval_sec", (c: Config) => c.keepalive, Whole())
  {
    forall cfg: Config, section, key, text
      ensures Assign(cfg, section, key, text).keepalive
           == if PlaceOf(section) == "settings" && EqNoCase(key, "keepalive_interval_sec")
              then Whole()(text) else cfg.keepalive
    {
      NamesExclude(key);
    }
  }

  lemma {:induction false} QosDecides()
    ensures Decides("settings", "default_qos", (c: Config) => c.qos, Whole())
  {
    forall cfg: Config, section, key, text
      ensures Assign(cfg, section, key, text).qos
           == if PlaceOf(section) == "settings" && EqNoCase(key, "default_qos") then Whole()(text) else cfg.qos
    {
      NamesExclude(key);
    }
  }

  lemma {:induction false} TimeoutDecides()
    ensures Decides("settings", "operation_timeout_ms", (c: Config) => c.timeoutMs, Whole())
  {
    forall cfg: Config, section, key, text
      ensures Assign(cfg, section, key, text).timeoutMs
           == if PlaceOf(section) == "settings" && EqNoCase(key, "operation_timeout_ms")
              then Whole()(text) else cfg.timeoutMs
    {
      NamesExclude(key);
    }
  }

  lemma {:induction false} MaxReconnectDecides()
    ensures Decides("settings", "max_reconnect_attempts", (c: Config) => c.maxReconnect, Whole())
  {
    forall cfg: Config, section, key, text
      ensures Assign(cfg, section, key, text).maxReconnect
           == if PlaceOf(section) == "settings" && EqNoCase(key, "max_reconnect_attempts")
              then Whole()(text) else cfg.maxReconnect
    {
      NamesExclude(key);
    }
  }

  lemma {:induction false} ReconnectIntervalDecides()
    ensures Decides("settings", "reconnect_interval_sec", (c: Config) => c.reconnectInterval, Whole())
  {
    forall cfg: Config, section, key, text
      ensures Assign(cfg, section, key, text).reconnectInterval
           == if PlaceOf(section) == "settings" && EqNoCase(key, "reconnect_interval_sec")
              then Whole()(text) else cfg.reconnectInterval
    {
      NamesExclude(key);
    }
  }

  lemma {:induction false} RetainedDecides()
    ensures Decides("settings", "default_retained", (c: Config) => c.retained, Flag(0))
  {
    forall cfg: Config, section, key, text
      ensures Assign(cfg, section, key, text).retained
           == if PlaceOf(section) == "settings" && EqNoCase(key, "default_retained")
              then Flag(0)(text) else cfg.retained
    {
      NamesExclude(key);
    }
  }

  lemma {:induction false} AutoReconnectDecides()
    ensures Decides("settings", "enable_auto_reconnect", (c: Config) => c.autoReconnect, Flag(1))
  {
    forall cfg: Config, section, key, text
      ensures Assign(cfg, section, key, text).autoReconnect
           == if PlaceOf(section) == "settings" && EqNoCase(key, "enable_auto_reconnect")
              then Flag(1)(text) else cfg.autoReconnect
    {
      NamesExclude(key);
    }
  }

  // ---------------------------------------------------------------------------------------------
  // The result of loading

  /** The text of the last pair with this name in this place of the document. */
  function Given(entries: Entries, place: string, name: string): Option<string> {
    LastIn(entries, "", place, name)
  }

  /** The return code and the configuration for a document with these entries at its root. */
  function Loaded(entries: Entries): (int, Config) {
    var events := Document(Mapping(entries));
    Finish(Run(START, events[..EndAt(events)]).cfg, EndAt(events) < |events|)
  }

  lemma {:induction false} LoadedIsFinished(entries: Entries)
    requires Depth(Mapping(entries)) <= 7
    ensures Loaded(entries) == Finish(WalkEntries(entries, NoSection, DEFAULTS), true)
  {
    LoaderIsWalk(entries);
  }

  /** The texts, before topics are defaulted. */
  lemma {:induction false} TextsAfterWalk(entries: Entries, cfg: Config)
    ensures var c := WalkEntries(entries, NoSection, cfg);
            && c.broker == Chosen(Given(entries, "mqtt", "broker_uri"), Cut(128), cfg.broker)
            && c.clientId == Chosen(Given(entries, "mqtt", "client_id"), Cut(64), cfg.clientId)
            && c.username == Chosen(Given(entries, "authentication", "username"), Cut(64), cfg.username)
            && c.password == Chosen(Given(entries, "authentication", "password"), Cut(64), cfg.password)
            && c.pubTopic == Chosen(Given(entries, "topics", "publish_topic"), Cut(64), cfg.pubTopic)
            && c.subTopic == Chosen(Given(entries, "topics", "subscribe_topic"), Cut(64), cfg.subTopic)
  {
    BrokerDecides();
    SettingOfEntries(entries, NoSection, cfg, "mqtt", "broker_uri", (c: Config) => c.broker, Cut(128));
    ClientIdDecides();
    SettingOfEntries(entries, NoSection, cfg, "mqtt", "client_id", (c: Config) => c.clientId, Cut(64));
    UsernameDecides();
    SettingOfEntries(entries, NoSection, cfg, "authentication", "username", (c: Config) => c.username, Cut(64));
    PasswordDecides();
    SettingOfEntries(entries, NoSection, cfg, "authentication", "password", (c: Config) => c.password, Cut(64));
    PubTopicDecides();
    SettingOfEntries(entries, NoSection, cfg, "topics", "publish_topic", (c: Config) => c.pubTopic, Cut(64));
    SubTopicDecides();
    SettingOfEntries(entries, NoSection, cfg, "topics", "subscribe_topic", (c: Config) => c.subTopic, Cut(64));
  }

  lemma {:induction false} NumbersAfterWalk(entries: Entries, cfg: Config)
    ensures var c := WalkEntries(entries, NoSection, cfg);
            && c.keepalive == Chosen(Given(entries, "settings", "keepalive_interval_sec"), Whole(), cfg.keepalive)
            && c.qos == Chosen(Given(entries, "settings", "default_qos"), Whole(), cfg.qos)
            && c.timeoutMs == Chosen(Given(entries, "settings", "operation_timeout_ms"), Whole(), cfg.timeoutMs)
            && c.maxReconnect == Chosen(Given(entries, "settings", "max_reconnect_attempts"), Whole(), cfg.maxReconnect)
            && c.reconnectInterval
               == Chosen(Given(entries, "settings", "reconnect_interval_sec"), Whole(), cfg.reconnectInterval)
            && c.retained == Chosen(Given(entries, "settings", "default_retained"), Flag(0), cfg.retained)
            && c.autoReconnect
               == Chosen(Given(entries, "settings", "enable_auto_reconnect"), Flag(1), cfg.autoReconnect)
  {
    KeepaliveDecides();
    SettingOfEntries(entries, NoSection, cfg, "settings", "keepalive_interval_sec",
                     (c: Config) => c.keepalive, Whole());
    QosDecides();
    SettingOfEntries(entries, NoSection, cfg, "settings", "default_qos", (c: Config) => c.qos, Whole());
    TimeoutDecides();
    SettingOfEntries(entries, NoSection, cfg, "settings", "operation_timeout_ms", (c: Config) => c.timeoutMs, Whole());
    MaxReconnectDecides();
    SettingOfEntries(entries, NoSection, cfg, "settings", "max_reconnect_attempts",
                     (c: Config) => c.maxReconnect, Whole());
    ReconnectIntervalDecides();
    SettingOfEntries(entries, NoSection, cfg, "settings", "reconnect_interval_sec",
                     (c: Config) => c.reconnectInterval, Whole());
    RetainedDecides();
    SettingOfEntries(entries, NoSection, cfg, "settings", "default_retained", (c: Config) => c.retained, Flag(0));
    AutoReconnectDecides();
    SettingOfEntries(entries, NoSection, cfg, "settings", "enable_auto_reconnect",
                     (c: Config) => c.autoReconnect, Flag(1));
  }

  /**
   The configuration loaded from any document of a depth of at most 7: each setting is the last text given for it in its
   place, cut or converted, or its built-in value. Without a broker or a client id loading fails with -5; otherwise a
   missing publish topic is "device/echo" and a missing subscribe topic is the publish topic.
   */
  lemma {:induction false} LoadedSettings(entries: Entries)
    requires Depth(Mapping(entries)) <= 7
    ensures var (rc, c) := Loaded(entries);
            var pub := Chosen(Given(entries, "topics", "publish_topic"), Cut(64), "");
            var sub := Chosen(Given(entries, "topics", "subscribe_topic"), Cut(64), "");
            && c.broker == Chosen(Given(entries, "mqtt", "broker_uri"), Cut(128), "")
            && c.clientId == Chosen(Given(entries, "mqtt", "client_id"), Cut(64), "")
            && c.username == Chosen(Given(entries, "authentication", "username"), Cut(64), "")
            && c.password == Chosen(Given(entries, "authentication", "password"), Cut(64), "")
            && c.keepalive == Chosen(Given(entries, "settings", "keepalive_interval_sec"), Whole(), 60)
            && c.qos == Chosen(Given(entries, "settings", "default_qos"), Whole(), 1)
            && c.timeoutMs == Chosen(Given(entries, "settings", "operation_timeout_ms"), Whole(), 5000)
            && c.maxReconnect == Chosen(Given(entries, "settings", "max_reconnect_attempts"), Whole(), 0)
            && c.reconnectInterval == Chosen(Given(entries, "settings", "reconnect_interval_sec"), Whole(), 5)
            && c.retained == Chosen(Given(entries, "settings", "default_retained"), Flag(0), 0)
            && c.autoReconnect == Chosen(Given(entries, "settings", "enable_auto_reconnect"), Flag(1), 1)
            && rc == (if c.broker == "" || c.clientId == "" then -5 else 0)
            && c.pubTopic == (if pub == "" && rc == 0 then "device/echo" else pub)
            && c.subTopic == (if sub == "" && rc == 0 then c.pubTopic else sub)
  {
    LoadedIsFinished(entries);
    TextsAfterWalk(entries, DEFAULTS);
    NumbersAfterWalk(entries, DEFAULTS);
  }
}
