/** `bacnet_load_config_from_yaml`: a section machine without a stack, and the walk it computes. */
module BacnetLoader {
  import opened Prelude
  import opened Yaml
  import opened BacnetConfig

  datatype Section =
    | Root | Protocols | Bacnet | Discovery | LocalDevice | Network | Mstp | Services | Connection | HotConfig

  const INTERFACE_LEN: nat := 32
  const ADDRESS_LEN: nat := 48

  /** `atoi` stored into an unsigned field of the given number of values. */
  function Unsigned(text: string, values: nat): nat
    requires values > 0
  {
    Atoi(text) % values
  }

  function OrDefault(n: nat, default: nat): nat {
    if n > 0 then n else default
  }

  function Assign(cfg: Config, section: Section, key: string, text: string): Config {
    match section
    case Discovery =>
      if key == "target_device_start" then cfg.(targetDeviceStart := Unsigned(text, TWO_32))
      else if key == "target_device_end" then cfg.(targetDeviceEnd := Unsigned(text, TWO_32))
      else if key == "whois_retry" then cfg.(whoisRetry := Unsigned(text, 256))
      else if key == "response_timeout_ms" then cfg.(responseTimeoutMs := Unsigned(text, TWO_32))
      else cfg
    case LocalDevice =>
      if key == "instance_id" then cfg.(localInstanceId := Unsigned(text, TWO_32))
      else if key == "max_apdu" then cfg.(localMaxApdu := Unsigned(text, 0x1_0000))
      else cfg
    case Network =>
      if key == "interface" then cfg.(interfaceName := CopyStr(INTERFACE_LEN, text))
      else if key == "port" then cfg.(port := Unsigned(text, 0x1_0000))
      else if key == "broadcast_address" then cfg.(broadcastAddress := CopyStr(ADDRESS_LEN, text))
      else cfg
    case Mstp =>
      if key == "port" then cfg.(mstpPort := CopyStr(INTERFACE_LEN, text))
      else if key == "baud_rate" then cfg.(mstpBaud := Unsigned(text, TWO_32))
      else if key == "mac_address" then cfg.(mstpMac := Unsigned(text, 256))
      else if key == "max_master" then cfg.(mstpMaxMaster := Unsigned(text, 256))
      else if key == "max_info_frames" then cfg.(mstpMaxFrames := Unsigned(text, 256))
      else cfg
    case Services =>
      if key == "read_timeout_ms" then cfg.(readTimeoutMs := OrDefault(Unsigned(text, TWO_32), 6000))
      else if key == "write_timeout_ms" then cfg.(writeTimeoutMs := OrDefault(Unsigned(text, TWO_32), 6000))
      else if key == "default_priority" then cfg.(defaultPriority := OrDefault(Unsigned(text, 256), 8))
      else if key == "cache_expiry_ms" then cfg.(cacheExpiryMs := Unsigned(text, TWO_32))
      else if key == "cache_strategy" then cfg.(cacheStrategy := Unsigned(text, 256))
      else if key == "datalink_maintenance_ms" then
        cfg.(datalinkMaintenanceMs := OrDefault(Unsigned(text, TWO_32), 1000))
      else cfg
    case Connection =>
      if key == "max_reconnect_attempts" then cfg.(maxReconnectAttempts := OrDefault(Unsigned(text, 256), 5))
      else if key == "reconnect_interval_ms" then cfg.(reconnectIntervalMs := OrDefault(Unsigned(text, TWO_32), 3000))
      else cfg
    case HotConfig =>
      if key == "enabled" then cfg.(hotConfigEnabled := ParseBool(text, 1))
      else if key == "polling_interval_ms" then cfg.(hotConfigPollingMs := OrDefault(Unsigned(text, TWO_32), 1000))
      else cfg
    case _ => cfg
  }

  function SubSection(key: string): Option<Section> {
    if key == "discovery" then Some(Discovery)
    else if key == "local_device" then Some(LocalDevice)
    else if key == "network" then Some(Network)
    else if key == "mstp" then Some(Mstp)
    else if key == "services" then Some(Services)
    else if key == "connection" then Some(Connection)
    else if key == "hot_config" then Some(HotConfig)
    else None
  }

  // ---------------------------------------------------------------------------------------------
  // The reference: a walk in which the place of a mapping decides its section

  function ChildSection(parent: Section, key: string): Option<Section> {
    match parent
    case Root => if key == "protocols" then Some(Protocols) else None
    case Protocols => if key == "bacnet" then Some(Bacnet) else None
    case Bacnet => SubSection(key)
    case _ => None
  }

  function Walk(entries: Entries, section: Section, cfg: Config): Config {
    match entries
    case Nil => cfg
    case Entry(key, Leaf(text), rest) => Walk(rest, section, Assign(cfg, section, key, text))
    case Entry(key, Mapping(inner), rest) =>
      var child := ChildSection(section, key);
      Walk(rest, section, if child.Some? then Walk(inner, child.value, cfg) else cfg)
  }

  // ---------------------------------------------------------------------------------------------
  // The machine

  datatype Loader = Loader(section: Section, lastKey: string, cfg: Config)

  const START := Loader(Root, "", DEFAULTS)

  /** The section a scalar in key position switches to, if it does. */
  function Switch(section: Section, text: string): Option<Section> {
    match section
    case Root => if text == "protocols" then Some(Protocols) else None
    case Protocols => if text == "bacnet" then Some(Bacnet) else None
    case _ => SubSection(text)
  }

  function Step(l: Loader, e: Event): Loader {
    match e
    case Scalar(text) =>
      if l.lastKey == "" then
        match Switch(l.section, text)
        case Some(section) => l.(section := section)
        case None => l.(lastKey := text)
      else l.(cfg := Assign(l.cfg, l.section, l.lastKey, text), lastKey := "")
    case MappingEnd =>
      l.(section :=
           match l.section
           case Root => Root
           case Protocols => Root
           case Bacnet => Protocols
           case Mstp => Mstp
           case _ => Bacnet)
    case _ => l
  }

  function Run(l: Loader, events: seq<Event>): Loader
    decreases |events|
  {
    if events == [] then l else Run(Step(l, events[0]), events[1..])
  }

  lemma {:induction false} RunAppend(l: Loader, a: seq<Event>, b: seq<Event>)
    ensures Run(l, a + b) == Run(Run(l, a), b)
    decreases |a|
  {
    if a == [] {
      assert a + b == b;
    } else {
      assert (a + b)[1..] == a[1..] + b;
      RunAppend(Step(l, a[0]), a[1..], b);
    }
  }

  lemma {:induction false} RunOne(l: Loader, e: Event)
    ensures Run(l, [e]) == Step(l, e)
  {
    assert [e][1..] == [];
  }

  lemma {:induction false} RunCons(l: Loader, e: Event, rest: seq<Event>)
    ensures Run(l, [e] + rest) == Run(Step(l, e), rest)
  {
    assert ([e] + rest)[1..] == rest;
  }

  /** The loader; `events` is what the parser delivers before it ends or fails, neither of which is an error. */
  method LoadConfig(events: seq<Event>) returns (cfg: Config)
    ensures cfg == Run(START, events[..EndAt(events)]).cfg
  {
    cfg := DEFAULTS;
    var section, lastKey := Root, "";
    var n := 0;
    while n < |events| && !events[n].StreamEnd?
      invariant n <= |events|
      invariant forall m :: 0 <= m < n ==> !events[m].StreamEnd?
      invariant Run(START, events[..n]) == Loader(section, lastKey, cfg)
    {
      RunAppend(START, events[..n], [events[n]]);
      RunOne(Loader(section, lastKey, cfg), events[n]);
      assert events[..n + 1] == events[..n] + [events[n]];
      match events[n] {
        case Scalar(text) =>
          if lastKey == "" {
            var isSectionKey := false;
            if section == Root {
              if text == "protocols" {
                section, isSectionKey := Protocols, true;
              }
            } else if section == Protocols {
              if text == "bacnet" {
                section, isSectionKey := Bacnet, true;
              }
            } else if SubSection(text).Some? {
              section, isSectionKey := SubSection(text).value, true;
            }
            if !isSectionKey {
              lastKey := text;
            }
          } else {
            cfg := Assign(cfg, section, lastKey, text);
            lastKey := "";
          }
        case MappingEnd =>
          if section == Bacnet {
            section := Protocols;
          } else if section == Protocols {
            section := Root;
          } else if section != Root && section != Mstp {
            section := Bacnet;
          }
        case _ =>
      }
      n := n + 1;
    }
    assert n == EndAt(events);
  }

  // ---------------------------------------------------------------------------------------------
  // Runs over entries

  function Append(a: Entries, b: Entries): Entries {
    match a
    case Nil => b
    case Entry(key, value, rest) => Entry(key, value, Append(rest, b))
  }

  lemma {:induction false} RunAppendEntries(l: Loader, a: Entries, b: Entries)
    ensures Run(l, FlattenEntries(Append(a, b))) == Run(Run(l, FlattenEntries(a)), FlattenEntries(b))
    decreases a
  {
    match a
    case Nil =>
    case Entry(key, value, rest) =>
      var first := [Scalar(key)] + Flatten(value);
      RunAppend(l, first, FlattenEntries(Append(rest, b)));
      RunAppend(l, first, FlattenEntries(rest));
      RunAppendEntries(Run(l, first), rest, b);
  }

  lemma {:induction false} RunLeaf(l: Loader, key: string, text: string, rest: Entries)
    ensures Run(l, FlattenEntries(Entry(key, Leaf(text), rest)))
         == Run(Step(Step(l, Scalar(key)), Scalar(text)), FlattenEntries(rest))
  {
    var pair := [Scalar(key)] + [Scalar(text)];
    RunAppend(l, pair, FlattenEntries(rest));
    RunAppend(l, [Scalar(key)], [Scalar(text)]);
    RunOne(l, Scalar(key));
    RunOne(Step(l, Scalar(key)), Scalar(text));
  }

  lemma {:induction false} RunMapping(l: Loader, entries: Entries)
    ensures Run(l, Flatten(Mapping(entries))) == Step(Run(Step(l, MappingStart), FlattenEntries(entries)), MappingEnd)
  {
    var body := FlattenEntries(entries);
    RunAppend(l, [MappingStart] + body, [MappingEnd]);
    RunCons(l, MappingStart, body);
    RunOne(Run(Step(l, MappingStart), body), MappingEnd);
  }

  lemma {:induction false} RunBlock(l: Loader, key: string, inner: Entries, rest: Entries)
    ensures Run(l, FlattenEntries(Entry(key, Mapping(inner), rest)))
         == Run(Step(Run(Step(Step(l, Scalar(key)), MappingStart), FlattenEntries(inner)), MappingEnd),
                FlattenEntries(rest))
  {
    RunAppend(l, [Scalar(key)] + Flatten(Mapping(inner)), FlattenEntries(rest));
    RunCons(l, Scalar(key), Flatten(Mapping(inner)));
    RunMapping(Step(l, Scalar(key)), inner);
  }

  /** The configuration loaded from the document with these entries at its root. */
  function Loaded(entries: Entries): Config {
    var events := Document(Mapping(entries));
    Run(START, events[..EndAt(events)]).cfg
  }

  lemma {:induction false} LoadedIsRun(entries: Entries)
    ensures Loaded(entries) == Run(START, FlattenEntries(entries)).cfg
  {
    var root := Mapping(entries);
    DocumentEnds(root);
    RunAppend(START, [StreamStart, DocumentStart] + Flatten(root), [DocumentEnd]);
    RunAppend(START, [StreamStart, DocumentStart], Flatten(root));
    assert [StreamStart, DocumentStart] == [StreamStart] + [DocumentStart];
    RunCons(START, StreamStart, [DocumentStart]);
    RunOne(START, DocumentStart);
    RunMapping(START, entries);
    RunOne(Run(START, Flatten(root)), DocumentEnd);
  }

  lemma {:induction false} WalkAppend(a: Entries, b: Entries, section: Section, cfg: Config)
    ensures Walk(Append(a, b), section, cfg) == Walk(b, section, Walk(a, section, cfg))
    decreases a
  {
    match a
    case Nil =>
    case Entry(key, Leaf(text), rest) => WalkAppend(rest, b, section, Assign(cfg, section, key, text));
    case Entry(key, Mapping(inner), rest) =>
      var child := ChildSection(section, key);
      WalkAppend(rest, b, section, if child.Some? then Walk(inner, child.value, cfg) else cfg);
  }

  // ---------------------------------------------------------------------------------------------
  // Section blocks

  /** Scalar pairs whose keys are not empty and not section names. */
  predicate ScalarPairs(entries: Entries) {
    match entries
    case Nil => true
    case Entry(key, value, rest) => key != "" && SubSection(key).None? && value.Leaf? && ScalarPairs(rest)
  }

  /** Any sequence of section blocks, in any order and number. */
  predicate Blocks(entries: Entries) {
    match entries
    case Nil => true
    case Entry(key, value, rest) =>
      SubSection(key).Some? && value.Mapping? && ScalarPairs(value.entries) && Blocks(rest)
  }

  predicate UnderBacnet(section: Section) {
    !section.Root? && !section.Protocols?
  }

  lemma {:induction false} PairsAreWalk(l: Loader, entries: Entries)
    requires ScalarPairs(entries) && l.lastKey == "" && UnderBacnet(l.section)
    ensures Run(l, FlattenEntries(entries)) == l.(cfg := Walk(entries, l.section, l.cfg))
    decreases entries
  {
    match entries
    case Nil =>
    case Entry(key, value, rest) =>
      RunLeaf(l, key, value.text, rest);
      PairsAreWalk(Step(Step(l, Scalar(key)), Scalar(value.text)), rest);
  }

  /** The last block is an mstp section. */
  predicate EndsInMstp(blocks: Entries) {
    match blocks
    case Nil => false
    case Entry(key, _, rest) => if rest.Nil? then SubSection(key) == Some(Mstp) else EndsInMstp(rest)
  }

  /** Where the blocks leave the machine: the end of a block returns to bacnet, except from mstp. */
  function AfterBlocks(blocks: Entries, before: Section): Section {
    if blocks.Nil? then before else if EndsInMstp(blocks) then Mstp else Bacnet
  }

  /** One block: its name switches to its section; its end returns to bacnet, except from mstp. */
  lemma {:induction false} BlockIsWalk(l: Loader, key: string, entries: Entries)
    requires SubSection(key).Some? && ScalarPairs(entries)
    requires l.lastKey == "" && (l.section.Bacnet? || l.section.Mstp?)
    ensures Step(Run(Step(Step(l, Scalar(key)), MappingStart), FlattenEntries(entries)), MappingEnd)
         == AfterBlock(l, key, entries)
  {
    PairsAreWalk(Loader(SubSection(key).value, "", l.cfg), entries);
  }

  lemma {:induction false} BlocksAreWalk(l: Loader, blocks: Entries)
    requires Blocks(blocks) && l.lastKey == "" && (l.section.Bacnet? || l.section.Mstp?)
    ensures Run(l, FlattenEntries(blocks)) == Loader(AfterBlocks(blocks, l.section), "", Walk(blocks, Bacnet, l.cfg))
    decreases blocks
  {
    match blocks
    case Nil =>
    case Entry(key, Leaf(_), rest) =>
    case Entry(key, Mapping(entries), rest) =>
      RunBlock(l, key, entries, rest);
      BlockIsWalk(l, key, entries);
      BlocksAreWalk(AfterBlock(l, key, entries), rest);
  }

  /** The machine after a block. */
  function AfterBlock(l: Loader, key: string, entries: Entries): Loader
    requires SubSection(key).Some?
  {
    var section := SubSection(key).value;
    Loader(if section.Mstp? then Mstp else Bacnet, "", Walk(entries, section, l.cfg))
  }

  // ---------------------------------------------------------------------------------------------
  // What stands before and beside bacnet

  /** No scalar of these events is one of the two names that lead to the sections. */
  predicate Nameless(events: seq<Event>) {
    forall n :: 0 <= n < |events| ==> events[n] != Scalar("protocols") && events[n] != Scalar("bacnet")
  }

  /** A key is still waiting for its value after the events. */
  predicate Waiting(events: seq<Event>, waiting: bool)
    decreases |events|
  {
    if events == [] then waiting
    else Waiting(events[1..], if events[0].Scalar? then !waiting && events[0].text != "" else waiting)
  }

  predicate EndsMapping(events: seq<Event>) {
    MappingEnd in events
  }

  /**
   Outside bacnet, events without the two names assign nothing and change the section only by ending a mapping of
   protocols; whether a key is left waiting depends on the number of scalars alone.
   */
  lemma {:induction false} NamelessAssignsNothing(l: Loader, events: seq<Event>)
    requires Nameless(events) && (l.section.Root? || l.section.Protocols?)
    ensures var r := Run(l, events);
            && r.cfg == l.cfg
            && r.section == (if EndsMapping(events) then Root else l.section)
            && (r.lastKey != "" <==> Waiting(events, l.lastKey != ""))
    decreases |events|
  {
    if events != [] {
      assert forall n :: 0 <= n < |events[1..]| ==> events[1..][n] == events[n + 1];
      assert events == [events[0]] + events[1..];
      NamelessAssignsNothing(Step(l, events[0]), events[1..]);
    }
  }

  predicate OnlyLeaves(entries: Entries) {
    match entries
    case Nil => true
    case Entry(_, value, rest) => value.Leaf? && OnlyLeaves(rest)
  }

  lemma {:induction false} MappingsEnd(entries: Entries)
    ensures EndsMapping(FlattenEntries(entries)) <==> !OnlyLeaves(entries)
    decreases entries
  {
    match entries
    case Nil =>
    case Entry(key, value, rest) =>
      MappingsEnd(rest);
      assert value.Mapping? ==> MappingEnd in Flatten(value);
  }

  /** The entries leave the machine where bacnet is recognised: nothing ends protocols, and no key is left waiting. */
  predicate Harmless(before: Entries, beside: Entries) {
    && !Waiting(FlattenEntries(before), false)
    && OnlyLeaves(beside) && !Waiting(FlattenEntries(beside), false)
  }

  /** A document with `before` and `tail` around protocols, and `beside` and `after` around bacnet. */
  function Doc(before: Entries, beside: Entries, blocks: Entries, after: Entries, tail: Entries): Entries {
    Append(before, Entry("protocols", Mapping(Append(beside, Entry("bacnet", Mapping(blocks), after))), tail))
  }

  /** Pairs behind bacnet: their keys are neither empty nor names of any section. */
  predicate PairsBehind(entries: Entries) {
    match entries
    case Nil => true
    case Entry(key, value, rest) =>
      && value.Leaf? && key != "" && key != "protocols" && key != "bacnet" && SubSection(key).None?
      && PairsBehind(rest)
  }

  lemma {:induction false} PairsBehindAreWalk(l: Loader, entries: Entries)
    requires PairsBehind(entries) && l.lastKey == "" && (l.section.Root? || l.section.Protocols? || l.section.Mstp?)
    ensures Run(l, FlattenEntries(entries)) == l.(cfg := Walk(entries, l.section, l.cfg))
    ensures !l.section.Mstp? ==> Walk(entries, l.section, l.cfg) == l.cfg
    decreases entries
  {
    match entries
    case Nil =>
    case Entry(key, value, rest) =>
      RunLeaf(l, key, value.text, rest);
      PairsBehindAreWalk(Step(Step(l, Scalar(key)), Scalar(value.text)), rest);
  }

  lemma {:induction false} WalkNameless(entries: Entries, section: Section, cfg: Config)
    requires Nameless(FlattenEntries(entries)) && (section.Root? || section.Protocols?)
    ensures Walk(entries, section, cfg) == cfg
    decreases entries
  {
    match entries
    case Nil =>
    case Entry(key, value, rest) =>
      var events := FlattenEntries(entries);
      assert events[0] == Scalar(key);
      assert events[|[Scalar(key)] + Flatten(value)|..] == FlattenEntries(rest);
      WalkNameless(rest, section, cfg);
  }

  /** The walk takes the section blocks and nothing else. */
  lemma {:induction false} WalkOfDoc(before: Entries, beside: Entries, blocks: Entries, after: Entries, tail: Entries)
    requires Nameless(FlattenEntries(before)) && Nameless(FlattenEntries(beside))
    requires PairsBehind(after) && PairsBehind(tail)
    ensures Walk(Doc(before, beside, blocks, after, tail), Root, DEFAULTS) == Walk(blocks, Bacnet, DEFAULTS)
  {
    var bacnet := Entry("bacnet", Mapping(blocks), after);
    var protocols := Entry("protocols", Mapping(Append(beside, bacnet)), tail);
    var cfg := Walk(blocks, Bacnet, DEFAULTS);
    WalkAppend(before, protocols, Root, DEFAULTS);
    WalkNameless(before, Root, DEFAULTS);
    WalkAppend(beside, bacnet, Protocols, DEFAULTS);
    WalkNameless(beside, Protocols, DEFAULTS);
    PairsBehindAreWalk(Loader(Protocols, "", cfg), after);
    PairsBehindAreWalk(Loader(Root, "", cfg), tail);
    assert Walk(bacnet, Protocols, DEFAULTS) == Walk(after, Protocols, cfg);
  }

  /** The machine at the key `bacnet`. */
  function AtBacnet(before: Entries, beside: Entries): Loader {
    var atProtocols := Run(START, FlattenEntries(before));
    Run(Step(Step(atProtocols, Scalar("protocols")), MappingStart), FlattenEntries(beside))
  }

  /** From the key `bacnet` to the end of the document. */
  function RunOn(l: Loader, blocks: Entries, after: Entries, tail: Entries): Loader {
    var inside := Run(Step(Step(l, Scalar("bacnet")), MappingStart), FlattenEntries(blocks));
    Run(Step(Run(Step(inside, MappingEnd), FlattenEntries(after)), MappingEnd), FlattenEntries(tail))
  }

  lemma {:induction false} RunOfDoc(before: Entries, beside: Entries, blocks: Entries, after: Entries, tail: Entries)
    ensures Run(START, FlattenEntries(Doc(before, beside, blocks, after, tail)))
         == RunOn(AtBacnet(before, beside), blocks, after, tail)
  {
    var bacnet := Entry("bacnet", Mapping(blocks), after);
    var inner := Append(beside, bacnet);
    var atProtocols := Run(START, FlattenEntries(before));
    var start := Step(Step(atProtocols, Scalar("protocols")), MappingStart);
    RunAppendEntries(START, before, Entry("protocols", Mapping(inner), tail));
    RunBlock(atProtocols, "protocols", inner, tail);
    RunAppendEntries(start, beside, bacnet);
    RunBlock(AtBacnet(before, beside), "bacnet", blocks, after);
  }

  lemma {:induction false} AtBacnetIs(before: Entries, beside: Entries)
    requires Nameless(FlattenEntries(before)) && Nameless(FlattenEntries(beside))
    ensures var l := AtBacnet(before, beside);
            && l.cfg == DEFAULTS && (l.section.Root? || l.section.Protocols?)
            && (l.section.Protocols? && l.lastKey == "" <==> Harmless(before, beside))
  {
    NamelessAssignsNothing(START, FlattenEntries(before));
    var atProtocols := Run(START, FlattenEntries(before));
    var start := Step(Step(atProtocols, Scalar("protocols")), MappingStart);
    NamelessAssignsNothing(start, FlattenEntries(beside));
    MappingsEnd(beside);
  }

  /**
   What is loaded when the entries before and beside bacnet are harmless. Behind an mstp section that comes last, the
   pairs after bacnet and after protocols are taken as MS/TP settings, because the machine never leaves that section.
   */
  lemma {:induction false} LoadedBehindBacnet(
    before: Entries, beside: Entries, blocks: Entries, after: Entries, tail: Entries)
    requires Nameless(FlattenEntries(before)) && Nameless(FlattenEntries(beside)) && Harmless(before, beside)
    requires Blocks(blocks) && PairsBehind(after) && PairsBehind(tail)
    ensures Loaded(Doc(before, beside, blocks, after, tail))
         == Walk(Append(after, tail), if EndsInMstp(blocks) then Mstp else Root, Walk(blocks, Bacnet, DEFAULTS))
  {
    LoadedIsRun(Doc(before, beside, blocks, after, tail));
    RunOfDoc(before, beside, blocks, after, tail);
    AtBacnetIs(before, beside);
    RunOnIsWalk(AtBacnet(before, beside), blocks, after, tail);
  }

  lemma {:induction false} RunOnIsWalk(l: Loader, blocks: Entries, after: Entries, tail: Entries)
    requires l.section.Protocols? && l.lastKey == ""
    requires Blocks(blocks) && PairsBehind(after) && PairsBehind(tail)
    ensures RunOn(l, blocks, after, tail).cfg
         == Walk(Append(after, tail), if EndsInMstp(blocks) then Mstp else Root, Walk(blocks, Bacnet, l.cfg))
  {
    assert Step(Step(l, Scalar("bacnet")), MappingStart) == Loader(Bacnet, "", l.cfg);
    BlocksAreWalk(Loader(Bacnet, "", l.cfg), blocks);
    RunBehind(Loader(AfterBlocks(blocks, Bacnet), "", Walk(blocks, Bacnet, l.cfg)), after, tail);
  }

  /** The ends of bacnet and protocols with pairs behind them, from bacnet or from mstp. */
  lemma {:induction false} RunBehind(l: Loader, after: Entries, tail: Entries)
    requires (l.section.Bacnet? || l.section.Mstp?) && l.lastKey == "" && PairsBehind(after) && PairsBehind(tail)
    ensures Run(Step(Run(Step(l, MappingEnd), FlattenEntries(after)), MappingEnd), FlattenEntries(tail)).cfg
         == Walk(Append(after, tail), if l.section.Mstp? then Mstp else Root, l.cfg)
  {
    var behind, last := Step(l, MappingEnd), if l.section.Mstp? then Mstp else Root;
    PairsBehindAreWalk(behind, after);
    PairsBehindAreWalk(Loader(last, "", l.cfg), after);
    PairsBehindAreWalk(Loader(last, "", Walk(after, behind.section, l.cfg)), tail);
    WalkAppend(after, tail, last, l.cfg);
  }

  /**
   With harmless entries before and beside bacnet and pairs behind it, the machine computes the walk if and only if
   the last block is not mstp or the pairs behind bacnet, read as MS/TP settings, change nothing.
   */
  lemma {:induction false} LoaderIsWalkUnlessMstpLeaks(
    before: Entries, beside: Entries, blocks: Entries, after: Entries, tail: Entries)
    requires Nameless(FlattenEntries(before)) && Nameless(FlattenEntries(beside)) && Harmless(before, beside)
    requires Blocks(blocks) && PairsBehind(after) && PairsBehind(tail)
    ensures var doc := Doc(before, beside, blocks, after, tail);
            Loaded(doc) == Walk(doc, Root, DEFAULTS)
            <==> !EndsInMstp(blocks) || KeepsMstp(Walk(blocks, Bacnet, DEFAULTS), Append(after, tail))
  {
    LoadedBehindBacnet(before, beside, blocks, after, tail);
    WalkOfDoc(before, beside, blocks, after, tail);
    AppendPairs(after, tail);
    var cfg := Walk(blocks, Bacnet, DEFAULTS);
    if EndsInMstp(blocks) {
      MstpWalkKeeps(Append(after, tail), cfg);
    } else {
      PairsBehindAreWalk(Loader(Root, "", cfg), Append(after, tail));
    }
  }

  lemma {:induction false} AppendPairs(a: Entries, b: Entries)
    requires PairsBehind(a) && PairsBehind(b)
    ensures PairsBehind(Append(a, b))
    decreases a
  {
    if a.Entry? {
      AppendPairs(a.rest, b);
    }
  }

  /** The text of the last pair with the key. */
  function LastOf(entries: Entries, key: string): Option<string> {
    match entries
    case Nil => None
    case Entry(k, value, rest) =>
      if LastOf(rest, key).Some? then LastOf(rest, key)
      else if k == key && value.Leaf? then Some(value.text) else None
  }

  /** For each MS/TP setting, the last pair with its key, if there is one, gives the value it has. */
  predicate KeepsMstp(cfg: Config, entries: Entries) {
    && (LastOf(entries, "port").Some? ==> CopyStr(INTERFACE_LEN, LastOf(entries, "port").value) == cfg.mstpPort)
    && (LastOf(entries, "baud_rate").Some? ==> Unsigned(LastOf(entries, "baud_rate").value, TWO_32) == cfg.mstpBaud)
    && (LastOf(entries, "mac_address").Some? ==> Unsigned(LastOf(entries, "mac_address").value, 256) == cfg.mstpMac)
    && (LastOf(entries, "max_master").Some? ==>
          Unsigned(LastOf(entries, "max_master").value, 256) == cfg.mstpMaxMaster)
    && (LastOf(entries, "max_info_frames").Some? ==>
          Unsigned(LastOf(entries, "max_info_frames").value, 256) == cfg.mstpMaxFrames)
  }

  function Number(text: Option<string>, values: nat, default: nat): nat
    requires values > 0
  {
    if text.Some? then Unsigned(text.value, values) else default
  }

  /** MS/TP pairs set each setting to what the last pair with its key says, and nothing else. */
  lemma {:induction false} MstpWalk(entries: Entries, cfg: Config)
    requires PairsBehind(entries)
    ensures var port := LastOf(entries, "port");
            Walk(entries, Mstp, cfg) == cfg.(
              mstpPort := if port.Some? then CopyStr(INTERFACE_LEN, port.value) else cfg.mstpPort,
              mstpBaud := Number(LastOf(entries, "baud_rate"), TWO_32, cfg.mstpBaud),
              mstpMac := Number(LastOf(entries, "mac_address"), 256, cfg.mstpMac),
              mstpMaxMaster := Number(LastOf(entries, "max_master"), 256, cfg.mstpMaxMaster),
              mstpMaxFrames := Number(LastOf(entries, "max_info_frames"), 256, cfg.mstpMaxFrames))
    decreases entries
  {
    match entries
    case Nil =>
    case Entry(key, value, rest) => MstpWalk(rest, Assign(cfg, Mstp, key, value.text));
  }

  lemma {:induction false} MstpWalkKeeps(entries: Entries, cfg: Config)
    requires PairsBehind(entries)
    ensures Walk(entries, Mstp, cfg) == cfg <==> KeepsMstp(cfg, entries)
  {
    MstpWalk(entries, cfg);
  }

  /**
   On every document protocols -> bacnet -> section blocks of scalar pairs, in any order and with mstp
   anywhere, the machine without a stack computes the configuration of the walk.
   */
  lemma {:induction false} LoaderIsWalk(blocks: Entries)
    requires Blocks(blocks)
    ensures var doc := Doc(Nil, Nil, blocks, Nil, Nil);
            Loaded(doc) == Walk(doc, Root, DEFAULTS) == Walk(blocks, Bacnet, DEFAULTS)
  {
    LoaderIsWalkUnlessMstpLeaks(Nil, Nil, blocks, Nil, Nil);
    WalkOfDoc(Nil, Nil, blocks, Nil, Nil);
  }

  /** A pair behind a trailing mstp section is taken as a setting of the MS/TP port, which the walk ignores. */
  lemma {:induction false} TrailingMstpLeaks(text: string)
    ensures var blocks, tail := Entry("mstp", Mapping(Nil), Nil), Entry("port", Leaf(text), Nil);
            && Loaded(Doc(Nil, Nil, blocks, Nil, tail)).mstpPort == CopyStr(INTERFACE_LEN, text)
            && Walk(Doc(Nil, Nil, blocks, Nil, tail), Root, DEFAULTS) == DEFAULTS
  {
    var blocks, tail := Entry("mstp", Mapping(Nil), Nil), Entry("port", Leaf(text), Nil);
    LoadedBehindBacnet(Nil, Nil, blocks, Nil, tail);
    WalkOfDoc(Nil, Nil, blocks, Nil, tail);
    MstpWalk(tail, DEFAULTS);
    assert Walk(blocks, Bacnet, DEFAULTS) == DEFAULTS;
    assert LastOf(tail, "port") == Some(text);
  }

  // ---------------------------------------------------------------------------------------------
  // Entries that hide bacnet

  /** One setting in one section. */
  const ONE_SETTING := Entry("discovery", Mapping(Entry("whois_retry", Leaf("7"), Nil)), Nil)

  lemma {:induction false} OneSetting()
    ensures Blocks(ONE_SETTING) && Nameless(FlattenEntries(ONE_SETTING))
    ensures Walk(ONE_SETTING, Bacnet, DEFAULTS).whoisRetry == 7
  {
    var retry := Entry("whois_retry", Leaf("7"), Nil);
    assert FlattenEntries(retry) == [Scalar("whois_retry"), Scalar("7")];
    assert FlattenEntries(ONE_SETTING)
        == [Scalar("discovery"), MappingStart, Scalar("whois_retry"), Scalar("7"), MappingEnd];
    assert Walk(retry, Discovery, DEFAULTS).whoisRetry == Unsigned("7", 256);
    assert Walk(ONE_SETTING, Bacnet, DEFAULTS) == Walk(retry, Discovery, DEFAULTS);
    AtoiSeven();
  }

  lemma {:induction false} AtoiSeven()
    ensures Atoi("7") == 7
  {
    assert "7"[1..] == "";
    assert Digits("", 7) == 7;
    assert Digits("7", 0) == 7;
  }

  lemma {:induction false} HiddenSection(before: Entries, beside: Entries)
    requires Nameless(FlattenEntries(before)) && Nameless(FlattenEntries(beside)) && !Harmless(before, beside)
    ensures Loaded(Doc(before, beside, ONE_SETTING, Nil, Nil)) == DEFAULTS
  {
    LoadedIsRun(Doc(before, beside, ONE_SETTING, Nil, Nil));
    RunOfDoc(before, beside, ONE_SETTING, Nil, Nil);
    AtBacnetIs(before, beside);
    OneSetting();
    var l := Step(Step(AtBacnet(before, beside), Scalar("bacnet")), MappingStart);
    assert l.cfg == DEFAULTS && (l.section.Root? || l.section.Protocols?);
    NamelessAssignsNothing(l, FlattenEntries(ONE_SETTING));
  }

  /**
   Every section of bacnet is read as the walk reads it if and only if the entries before protocols leave no key
   waiting, and those before bacnet are scalars only and leave no key waiting. A mapping ends protocols for the machine.
   */
  lemma {:induction false} BacnetIsReadIffHarmless(before: Entries, beside: Entries)
    requires Nameless(FlattenEntries(before)) && Nameless(FlattenEntries(beside))
    ensures (forall blocks :: Blocks(blocks) ==>
               var doc := Doc(before, beside, blocks, Nil, Nil); Loaded(doc) == Walk(doc, Root, DEFAULTS))
            <==> Harmless(before, beside)
  {
    if Harmless(before, beside) {
      forall blocks | Blocks(blocks)
        ensures var doc := Doc(before, beside, blocks, Nil, Nil); Loaded(doc) == Walk(doc, Root, DEFAULTS)
      {
        LoaderIsWalkUnlessMstpLeaks(before, beside, blocks, Nil, Nil);
      }
    } else {
      OneSetting();
      HiddenSection(before, beside);
      WalkOfDoc(before, beside, ONE_SETTING, Nil, Nil);
    }
  }

  const EMPTY_MQTT := Entry("mqtt", Mapping(Nil), Nil)

  lemma {:induction false} MqttIsNotHarmless()
    ensures Nameless(FlattenEntries(Nil)) && Nameless(FlattenEntries(EMPTY_MQTT)) && !Harmless(Nil, EMPTY_MQTT)
  {
    assert FlattenEntries(EMPTY_MQTT) == [Scalar("mqtt"), MappingStart, MappingEnd];
  }

  /** An empty mapping beside bacnet and before it: the whole bacnet section is ignored. */
  lemma {:induction false} SiblingHidesBacnet()
    ensures var doc := Doc(Nil, EMPTY_MQTT, ONE_SETTING, Nil, Nil);
            Loaded(doc) == DEFAULTS && Walk(doc, Root, DEFAULTS).whoisRetry == 7
  {
    OneSetting();
    MqttIsNotHarmless();
    HiddenSection(Nil, EMPTY_MQTT);
    WalkOfDoc(Nil, EMPTY_MQTT, ONE_SETTING, Nil, Nil);
  }

  /** Pairs with keys that are not empty are harmless. */
  lemma {:induction false} PairsAreHarmless(before: Entries, beside: Entries)
    requires PairsBehind(before) && PairsBehind(beside)
    ensures Harmless(before, beside)
  {
    PairsLeaveNothingWaiting(before);
    PairsLeaveNothingWaiting(beside);
  }

  lemma {:induction false} PairsLeaveNothingWaiting(entries: Entries)
    requires PairsBehind(entries)
    ensures OnlyLeaves(entries) && !Waiting(FlattenEntries(entries), false)
    decreases entries
  {
    match entries
    case Nil =>
    case Entry(key, Leaf(text), rest) =>
      PairsLeaveNothingWaiting(rest);
      var events := FlattenEntries(entries);
      assert Flatten(Leaf(text)) == [Scalar(text)];
      assert events == [Scalar(key)] + [Scalar(text)] + FlattenEntries(rest);
      assert events[1..] == [Scalar(text)] + FlattenEntries(rest);
      assert events[1..][1..] == FlattenEntries(rest);
  }

  /** The fields guarded against 0. */
  predicate Guarded(cfg: Config) {
    && cfg.readTimeoutMs > 0 && cfg.writeTimeoutMs > 0 && cfg.defaultPriority > 0 && cfg.datalinkMaintenanceMs > 0
    && cfg.maxReconnectAttempts > 0 && cfg.reconnectIntervalMs > 0 && cfg.hotConfigPollingMs > 0
  }

  lemma {:induction false} AssignGuarded(cfg: Config, section: Section, key: string, text: string)
    requires Guarded(cfg)
    ensures Guarded(Assign(cfg, section, key, text))
  {
    match section
    case Services => ServicesGuarded(cfg, key, text);
    case Connection => ConnectionGuarded(cfg, key, text);
    case HotConfig => HotConfigGuarded(cfg, key, text);
    case _ =>
  }

  lemma {:induction false} ServicesGuarded(cfg: Config, key: string, text: string)
    requires Guarded(cfg)
    ensures Guarded(Assign(cfg, Services, key, text))
  {
  }

  lemma {:induction false} ConnectionGuarded(cfg: Config, key: string, text: string)
    requires Guarded(cfg)
    ensures Guarded(Assign(cfg, Connection, key, text))
  {
  }

  lemma {:induction false} HotConfigGuarded(cfg: Config, key: string, text: string)
    requires Guarded(cfg)
    ensures Guarded(Assign(cfg, HotConfig, key, text))
  {
  }

  lemma {:induction false} StepGuarded(l: Loader, e: Event)
    requires Guarded(l.cfg)
    ensures Guarded(Step(l, e).cfg)
  {
    if e.Scalar? {
      AssignGuarded(l.cfg, l.section, l.lastKey, e.text);
    }
  }

  lemma {:induction false} RunGuarded(l: Loader, events: seq<Event>)
    requires Guarded(l.cfg)
    ensures Guarded(Run(l, events).cfg)
    decreases |events|
  {
    if events != [] {
      StepGuarded(l, events[0]);
      RunGuarded(Step(l, events[0]), events[1..]);
    }
  }

  /** Whatever the file holds, the timeouts, the priority, the reconnect fields and the polling interval are not 0. */
  lemma {:induction false} LoadedConfigIsGuarded(events: seq<Event>)
    ensures Guarded(Run(START, events[..EndAt(events)]).cfg)
  {
    RunGuarded(START, events[..EndAt(events)]);
  }
}
