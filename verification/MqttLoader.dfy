/** `load_mqtt_config_from_yaml`: a push/pop machine over parser events, and the tree walk it computes. */
module MqttLoader {
  import opened Yaml

  datatype Section = NoSection | Protocols | Mqtt | Authentication | Settings | Topics

  datatype Config = Config(
    broker: string, clientId: string, username: string, password: string, pubTopic: string, subTopic: string,
    qos: int, retained: int, timeoutMs: int, keepalive: int, reconnectInterval: int,
    maxReconnect: int, autoReconnect: int)

  const DEFAULTS := Config("", "", "", "", "", "", 1, 0, 5000, 60, 5, 0, 1)

  const STACK_SIZE: nat := 8
  const KEY_SIZE: nat := 128

  /** The section a mapping under `key` belongs to, inside the section `parent`. */
  function SectionFor(key: string, parent: Section): Section {
    if EqNoCase(key, "protocols") then Protocols
    else if EqNoCase(key, "mqtt") then Mqtt
    else if EqNoCase(key, "authentication") then Authentication
    else if EqNoCase(key, "settings") then Settings
    else if EqNoCase(key, "topics") then Topics
    else parent
  }

  function Assign(cfg: Config, section: Section, key: string, text: string): Config {
    match section
    case Mqtt =>
      if EqNoCase(key, "broker_uri") then cfg.(broker := CopyStr(128, text))
      else if EqNoCase(key, "client_id") then cfg.(clientId := CopyStr(64, text))
      else cfg
    case Authentication =>
      if EqNoCase(key, "username") then cfg.(username := CopyStr(64, text))
      else if EqNoCase(key, "password") then cfg.(password := CopyStr(64, text))
      else cfg
    case Settings =>
      if EqNoCase(key, "keepalive_interval_sec") then cfg.(keepalive := Atoi(text))
      else if EqNoCase(key, "default_qos") then cfg.(qos := Atoi(text))
      else if EqNoCase(key, "default_retained") then cfg.(retained := ParseBool(text, 0))
      else if EqNoCase(key, "operation_timeout_ms") then cfg.(timeoutMs := Atoi(text))
      else if EqNoCase(key, "max_reconnect_attempts") then cfg.(maxReconnect := Atoi(text))
      else if EqNoCase(key, "enable_auto_reconnect") then cfg.(autoReconnect := ParseBool(text, 1))
      else if EqNoCase(key, "reconnect_interval_sec") then cfg.(reconnectInterval := Atoi(text))
      else cfg
    case Topics =>
      if EqNoCase(key, "publish_topic") then cfg.(pubTopic := CopyStr(64, text))
      else if EqNoCase(key, "subscribe_topic") then cfg.(subTopic := CopyStr(64, text))
      else cfg
    case _ => cfg
  }

  // ---------------------------------------------------------------------------------------------
  // The reference: a walk over the tree in which sections are inherited

  function Walk(node: Node, key: string, section: Section, cfg: Config): Config {
    match node
    case Leaf(text) => Assign(cfg, section, key, text)
    case Mapping(entries) => WalkEntries(entries, SectionFor(key, section), cfg)
  }

  function WalkEntries(entries: Entries, section: Section, cfg: Config): Config {
    match entries
    case Nil => cfg
    case Entry(key, value, rest) => WalkEntries(rest, section, Walk(value, key, section, cfg))
  }

  // ---------------------------------------------------------------------------------------------
  // The machine

  datatype Loader = Loader(stack: seq<Section>, sp: nat, inKey: bool, currentKey: string, cfg: Config)

  predicate Sound(l: Loader) {
    |l.stack| == STACK_SIZE && l.sp < STACK_SIZE
  }

  function Step(l: Loader, e: Event): (r: Loader)
    requires Sound(l)
    ensures Sound(r)
  {
    match e
    case MappingStart =>
      if l.sp < STACK_SIZE - 1
      then l.(sp := l.sp + 1, stack := l.stack[l.sp + 1 := SectionFor(l.currentKey, l.stack[l.sp])],
              currentKey := "", inKey := true)
      else l.(inKey := true)
    case MappingEnd => l.(sp := if l.sp > 0 then l.sp - 1 else 0, inKey := true)
    case SequenceStart => l.(inKey := true)
    case SequenceEnd => l.(inKey := true)
    case Scalar(text) =>
      if l.inKey then l.(currentKey := CopyStr(KEY_SIZE, text), inKey := false)
      else l.(cfg := Assign(l.cfg, l.stack[l.sp], l.currentKey, text), currentKey := "", inKey := true)
    case _ => l
  }

  function Run(l: Loader, events: seq<Event>): (r: Loader)
    requires Sound(l)
    ensures Sound(r)
    decreases |events|
  {
    if events == [] then l else Run(Step(l, events[0]), events[1..])
  }

  function EmptyStack(): (stack: seq<Section>)
    ensures |stack| == STACK_SIZE && forall n :: 0 <= n < |stack| ==> stack[n] == NoSection
  {
    seq(STACK_SIZE, _ => NoSection)
  }

  const START := Loader(EmptyStack(), 0, false, "", DEFAULTS)

  /** The mandatory-field check and the topic defaults after the loop. */
  function Finish(cfg: Config, ended: bool): (int, Config) {
    if cfg.broker == "" || cfg.clientId == "" then (-5, cfg)
    else
      var c := if cfg.pubTopic == "" then cfg.(pubTopic := "device/echo") else cfg;
      (if ended then 0 else -4, if c.subTopic == "" then c.(subTopic := c.pubTopic) else c)
  }

  lemma {:induction false} RunAppend(l: Loader, a: seq<Event>, b: seq<Event>)
    requires Sound(l)
    ensures Run(l, a + b) == Run(Run(l, a), b)
    decreases |a|
  {
    if a == [] {
      assert a + b == b;
    } else {
      assert (a + b)[1..] == a[1..] + b;
      RunAppend(Step(l, a[0]), a[1..], b);
    }
  }

  lemma {:induction false} RunOne(l: Loader, e: Event)
    requires Sound(l)
    ensures Run(l, [e]) == Step(l, e)
  {
    assert [e][1..] == [];
  }

  /** The loader: `events` is what the parser delivers before it ends or fails. */
  method LoadMqttConfig(events: seq<Event>) returns (rc: int, cfg: Config)
    ensures (rc, cfg) == Finish(Run(START, events[..EndAt(events)]).cfg, EndAt(events) < |events|)
  {
    cfg := DEFAULTS;
    var stack := new Section[STACK_SIZE](_ => NoSection);
    var sp: nat := 0;
    var currentKey, inKey := "", false;
    var n := 0;
    assert stack[..] == START.stack;
    while n < |events| && !events[n].StreamEnd?
      invariant n <= |events| && sp < STACK_SIZE
      invariant fresh(stack)
      invariant forall m :: 0 <= m < n ==> !events[m].StreamEnd?
      invariant Run(START, events[..n]) == Loader(stack[..], sp, inKey, currentKey, cfg)
    {
      RunAppend(START, events[..n], [events[n]]);
      assert events[..n + 1] == events[..n] + [events[n]];
      match events[n] {
        case MappingStart =>
          if sp < STACK_SIZE - 1 {
            sp := sp + 1;
            stack[sp] := stack[sp - 1];
            if EqNoCase(currentKey, "protocols") {
              stack[sp] := Protocols;
            } else if EqNoCase(currentKey, "mqtt") {
              stack[sp] := Mqtt;
            } else if EqNoCase(currentKey, "authentication") {
              stack[sp] := Authentication;
            } else if EqNoCase(currentKey, "settings") {
              stack[sp] := Settings;
            } else if EqNoCase(currentKey, "topics") {
              stack[sp] := Topics;
            }
            currentKey := "";
          }
          inKey := true;
        case MappingEnd =>
          if sp > 0 {
            sp := sp - 1;
          }
          inKey := true;
        case SequenceStart =>
          inKey := true;
        case SequenceEnd =>
          inKey := true;
        case Scalar(text) =>
          if inKey {
            currentKey := CopyStr(KEY_SIZE, text);
            inKey := false;
          } else {
            cfg := Assign(cfg, stack[sp], currentKey, text);
            currentKey := "";
            inKey := true;
          }
        case _ =>
      }
      n := n + 1;
    }
    rc := if n < |events| then 0 else -4;
    assert n == EndAt(events);
    if cfg.broker == "" || cfg.clientId == "" {
      return -5, cfg;
    }
    if cfg.pubTopic == "" {
      cfg := cfg.(pubTopic := "device/echo");
    }
    if cfg.subTopic == "" {
      cfg := cfg.(subTopic := cfg.pubTopic);
    }
  }

  // ---------------------------------------------------------------------------------------------
  // The machine computes the walk

  /** A key cut to the key buffer matches the same names. */
  lemma {:induction false} CutKeyMatches(key: string, name: string)
    requires |name| < KEY_SIZE - 1
    ensures EqNoCase(CopyStr(KEY_SIZE, key), name) <==> EqNoCase(key, name)
  {
  }

  lemma {:induction false} CutKeySection(key: string, section: Section)
    ensures SectionFor(CopyStr(KEY_SIZE, key), section) == SectionFor(key, section)
  {
    var names := ["protocols", "mqtt", "authentication", "settings", "topics"];
    forall n | 0 <= n < |names|
      ensures EqNoCase(CopyStr(KEY_SIZE, key), names[n]) <==> EqNoCase(key, names[n])
    {
      CutKeyMatches(key, names[n]);
    }
    assert names[0] == "protocols" && names[1] == "mqtt" && names[2] == "authentication";
    assert names[3] == "settings" && names[4] == "topics";
  }

  lemma {:induction false} CutKeyAssign(cfg: Config, section: Section, key: string, text: string)
    ensures Assign(cfg, section, CopyStr(KEY_SIZE, key), text) == Assign(cfg, section, key, text)
  {
    CutKeyMatches(key, "broker_uri");
    CutKeyMatches(key, "client_id");
    CutKeyMatches(key, "username");
    CutKeyMatches(key, "password");
    CutKeyMatches(key, "keepalive_interval_sec");
    CutKeyMatches(key, "default_qos");
    CutKeyMatches(key, "default_retained");
    CutKeyMatches(key, "operation_timeout_ms");
    CutKeyMatches(key, "max_reconnect_attempts");
    CutKeyMatches(key, "enable_auto_reconnect");
    CutKeyMatches(key, "reconnect_interval_sec");
    CutKeyMatches(key, "publish_topic");
    CutKeyMatches(key, "subscribe_topic");
  }

  /** The machine is back where it was, ready for the next key. */
  ghost predicate Returned(l: Loader, r: Loader)
    requires Sound(l) && Sound(r)
  {
    r.sp == l.sp && r.stack[..l.sp + 1] == l.stack[..l.sp + 1] && r.inKey && r.currentKey == ""
  }

  /** A value under `key` leaves the machine as it found it and does to the configuration what the walk does. */
  lemma {:induction false} ValueIsWalk(l: Loader, node: Node, key: string)
    requires Sound(l) && l.currentKey == CopyStr(KEY_SIZE, key)
    requires node.Leaf? ==> !l.inKey
    requires l.sp + Depth(node) < STACK_SIZE
    ensures var r := Run(l, Flatten(node));
            Returned(l, r) && r.cfg == Walk(node, key, l.stack[l.sp], l.cfg)
    decreases node, 0
  {
    match node
    case Leaf(text) =>
      CutKeyAssign(l.cfg, l.stack[l.sp], key, text);
      assert Run(l, [Scalar(text)]) == Step(l, Scalar(text));
    case Mapping(entries) =>
      CutKeySection(key, l.stack[l.sp]);
      var inner := Step(l, MappingStart);
      EntriesAreWalk(inner, entries);
      RunAppend(l, [MappingStart], FlattenEntries(entries));
      RunAppend(l, [MappingStart] + FlattenEntries(entries), [MappingEnd]);
      var r := Run(inner, FlattenEntries(entries));
      assert r.stack[..l.sp + 1] == r.stack[..l.sp + 2][..l.sp + 1];
      assert inner.stack[..l.sp + 2][..l.sp + 1] == l.stack[..l.sp + 1];
  }

  lemma {:induction false} EntriesAreWalk(l: Loader, entries: Entries)
    requires Sound(l) && l.inKey && l.currentKey == ""
    requires l.sp + DepthEntries(entries) < STACK_SIZE
    ensures var r := Run(l, FlattenEntries(entries));
            Returned(l, r) && r.cfg == WalkEntries(entries, l.stack[l.sp], l.cfg)
    decreases entries, 0
  {
    match entries
    case Nil =>
    case Entry(key, value, rest) =>
      var valued := EntryIsWalk(l, key, value, rest);
      SameSlot(valued.stack, l.stack, l.sp + 1, l.sp);
      EntriesAreWalk(valued, rest);
  }

  /** The machine after one entry. */
  lemma {:induction false} EntryIsWalk(l: Loader, key: string, value: Node, rest: Entries) returns (valued: Loader)
    requires Sound(l) && l.inKey && l.currentKey == "" && l.sp + Depth(value) < STACK_SIZE
    ensures Sound(valued) && Returned(l, valued) && valued.cfg == Walk(value, key, l.stack[l.sp], l.cfg)
    ensures Run(l, FlattenEntries(Entry(key, value, rest))) == Run(valued, FlattenEntries(rest))
    decreases value, 1
  {
    var keyed := Step(l, Scalar(key));
    ValueIsWalk(keyed, value, key);
    valued := Run(keyed, Flatten(value));
    RunOne(l, Scalar(key));
    RunAppend(l, [Scalar(key)], Flatten(value));
    RunAppend(l, [Scalar(key)] + Flatten(value), FlattenEntries(rest));
  }

  /**
   For every mapping tree of depth at most 7 the machine, run on the events of the document, computes
   the configuration of the recursive walk that inherits sections from the root.
   */
  lemma {:induction false} LoaderIsWalk(entries: Entries)
    requires Depth(Mapping(entries)) <= STACK_SIZE - 1
    ensures var events := Document(Mapping(entries));
            && EndAt(events) < |events|
            && Run(START, events[..EndAt(events)]).cfg == WalkEntries(entries, NoSection, DEFAULTS)
  {
    var root := Mapping(entries);
    DocumentEnds(root);
    RunAppend(START, [StreamStart, DocumentStart] + Flatten(root), [DocumentEnd]);
    RunAppend(START, [StreamStart, DocumentStart], Flatten(root));
    RunAppend(START, [StreamStart], [DocumentStart]);
    assert [StreamStart] + [DocumentStart] == [StreamStart, DocumentStart];
    RunOne(START, StreamStart);
    RunOne(START, DocumentStart);
    RunOne(Run(START, Flatten(root)), DocumentEnd);
    ValueIsWalk(START, root, "");
  }

  // ---------------------------------------------------------------------------------------------
  // The bound on the depth is sharp

  function Chain(n: nat): Node {
    if n == 0 then Leaf("x") else Mapping(Entry("a", Chain(n - 1), Nil))
  }

  /** A settings block that holds a chain of mappings and, after it, a setting. */
  function Nested(depth: nat): Node
    requires depth >= 2
  {
    Mapping(Entry("settings", Mapping(Entry("a", Chain(depth - 2), Entry("default_qos", Leaf("2"), Nil))), Nil))
  }

  /** What a chain leaves: beyond the stack it is popped more often than it is pushed. */
  predicate ChainLeaves(l: Loader, n: nat, r: Loader)
    requires Sound(l) && Sound(r)
  {
    && r.sp == (if l.sp + n < STACK_SIZE then l.sp else if n < STACK_SIZE then STACK_SIZE - 1 - n else 0)
    && r.stack[..l.sp + 1] == l.stack[..l.sp + 1] && r.cfg == l.cfg && r.inKey
  }

  lemma {:induction false} ChainOverflows(l: Loader, n: nat)
    requires Sound(l) && l.currentKey == "a" && !l.inKey
    ensures ChainLeaves(l, n, Run(l, Flatten(Chain(n))))
    decreases n
  {
    if n == 0 {
      NoLink(l);
    } else {
      var keyed, valued := Link(l, n);
      ChainOverflows(keyed, n - 1);
      LinkLeaves(l, keyed, valued, Run(l, Flatten(Chain(n))), n);
    }
  }

  lemma {:induction false} NoLink(l: Loader)
    requires Sound(l) && l.currentKey == "a" && !l.inKey
    ensures ChainLeaves(l, 0, Run(l, Flatten(Chain(0))))
  {
    RunOne(l, Scalar("x"));
    AssignIgnores(l.cfg, l.stack[l.sp]);
  }

  /** A link around a chain of `n - 1` links. */
  lemma {:induction false} LinkLeaves(l: Loader, keyed: Loader, valued: Loader, r: Loader, n: nat)
    requires Sound(l) && Sound(keyed) && Sound(valued) && Sound(r) && n > 0
    requires keyed.sp == (if l.sp < STACK_SIZE - 1 then l.sp + 1 else l.sp)
    requires keyed.stack[..l.sp + 1] == l.stack[..l.sp + 1] && keyed.cfg == l.cfg
    requires ChainLeaves(keyed, n - 1, valued)
    requires r.sp == (if valued.sp > 0 then valued.sp - 1 else 0)
    requires r.stack == valued.stack && r.cfg == valued.cfg && r.inKey
    ensures ChainLeaves(l, n, r)
  {
    SamePrefix(valued.stack, keyed.stack, l.stack, keyed.sp + 1, l.sp + 1);
  }

  lemma {:induction false} SamePrefix(a: seq<Section>, b: seq<Section>, c: seq<Section>, m: nat, n: nat)
    requires n <= m <= |a| == |b| && n <= |c| && a[..m] == b[..m] && b[..n] == c[..n]
    ensures a[..n] == c[..n]
  {
    assert a[..n] == a[..m][..n] && b[..n] == b[..m][..n];
  }

  /** One link of a chain: what is inside it, and what its end does. */
  lemma {:induction false} Link(l: Loader, n: nat) returns (keyed: Loader, valued: Loader)
    requires Sound(l) && n > 0
    ensures Sound(keyed) && keyed.sp == (if l.sp < STACK_SIZE - 1 then l.sp + 1 else l.sp)
    ensures keyed.stack[..l.sp + 1] == l.stack[..l.sp + 1]
    ensures keyed.cfg == l.cfg && keyed.currentKey == "a" && !keyed.inKey
    ensures valued == Run(keyed, Flatten(Chain(n - 1))) && Sound(valued)
    ensures var r := Run(l, Flatten(Chain(n)));
            && r.sp == (if valued.sp > 0 then valued.sp - 1 else 0) && r.stack == valued.stack
            && r.cfg == valued.cfg && r.inKey
  {
    keyed := Step(Step(l, MappingStart), Scalar("a"));
    PushKeeps(l);
    RunLink(l, n);
    valued := Run(keyed, Flatten(Chain(n - 1)));
  }

  lemma {:induction false} AssignIgnores(cfg: Config, section: Section)
    ensures Assign(cfg, section, "a", "x") == cfg
  {
  }

  lemma {:induction false} PushKeeps(l: Loader)
    requires Sound(l)
    ensures var r := Step(Step(l, MappingStart), Scalar("a"));
            && r.sp == (if l.sp < STACK_SIZE - 1 then l.sp + 1 else l.sp) && r.stack[..l.sp + 1] == l.stack[..l.sp + 1]
            && r.cfg == l.cfg && r.currentKey == "a" && !r.inKey
  {
  }

  lemma {:induction false} RunLink(l: Loader, n: nat)
    requires Sound(l) && n > 0
    ensures Run(l, Flatten(Chain(n)))
         == Step(Run(Step(Step(l, MappingStart), Scalar("a")), Flatten(Chain(n - 1))), MappingEnd)
  {
    var body := Flatten(Chain(n - 1));
    var links := Entry("a", Chain(n - 1), Nil);
    assert FlattenEntries(links) == [Scalar("a")] + body by {
      assert FlattenEntries(Nil) == [];
    }
    assert Flatten(Chain(n)) == [MappingStart] + FlattenEntries(links) + [MappingEnd];
    RunAppend(l, [MappingStart] + FlattenEntries(links), [MappingEnd]);
    RunAppend(l, [MappingStart], FlattenEntries(links));
    RunOne(l, MappingStart);
    var inner := Step(l, MappingStart);
    RunAppend(inner, [Scalar("a")], body);
    RunOne(inner, Scalar("a"));
    RunOne(Run(Step(inner, Scalar("a")), body), MappingEnd);
  }

  lemma {:induction false} ChainDepth(n: nat)
    ensures Depth(Chain(n)) == n
  {
    if n > 0 {
      ChainDepth(n - 1);
    }
  }

  /** For every depth above 7 there is a tree on which the machine and the walk disagree. */
  lemma {:induction false} DepthBoundIsSharp(depth: nat)
    requires depth >= STACK_SIZE
    ensures Depth(Nested(depth)) == depth
    ensures Run(START, Flatten(Nested(depth))).cfg != Walk(Nested(depth), "", NoSection, DEFAULTS)
  {
    NestedDepth(depth);
    WalkNested(depth);
    RunNested(depth);
  }

  /** All mapping trees of a depth of at most `d` are read as the walk reads them if and only if `d` is at most 7. */
  lemma {:induction false} DepthBound(d: nat)
    ensures (forall entries :: Depth(Mapping(entries)) <= d ==>
               Run(START, Flatten(Mapping(entries))).cfg == WalkEntries(entries, NoSection, DEFAULTS))
            <==> d <= STACK_SIZE - 1
  {
    if d <= STACK_SIZE - 1 {
      forall entries | Depth(Mapping(entries)) <= d
        ensures Run(START, Flatten(Mapping(entries))).cfg == WalkEntries(entries, NoSection, DEFAULTS)
      {
        ValueIsWalk(START, Mapping(entries), "");
        assert SectionFor("", NoSection) == NoSection;
      }
    } else {
      DepthBoundIsSharp(STACK_SIZE);
      var entries := Nested(STACK_SIZE).entries;
      assert Nested(STACK_SIZE) == Mapping(entries);
    }
  }

  lemma {:induction false} NestedDepth(depth: nat)
    requires depth >= STACK_SIZE
    ensures Depth(Nested(depth)) == depth
  {
    ChainDepth(depth - 2);
    var qos := Entry("default_qos", Leaf("2"), Nil);
    assert DepthEntries(Nil) == 0 && Depth(Leaf("2")) == 0;
    assert DepthEntries(qos) == 0;
    var chained := Entry("a", Chain(depth - 2), qos);
    assert DepthEntries(chained) == depth - 2;
    assert Depth(Mapping(chained)) == depth - 1;
    assert DepthEntries(Entry("settings", Mapping(chained), Nil)) == depth - 1;
  }

  lemma {:induction false} SameSlot(a: seq<Section>, b: seq<Section>, n: nat, i: nat)
    requires i < n <= |a| && n <= |b| && a[..n] == b[..n]
    ensures a[i] == b[i]
  {
    assert a[i] == a[..n][i] && b[i] == b[..n][i];
  }

  lemma {:induction false} RunNested(depth: nat)
    requires depth >= STACK_SIZE
    ensures Run(START, Flatten(Nested(depth))).cfg == DEFAULTS
  {
    var l := NestedIs(depth);
    ChainOverflows(l, depth - 2);
    AfterChain(l, Run(l, Flatten(Chain(depth - 2))), depth - 2);
  }

  /** The setting after the chain is read outside any section. */
  lemma {:induction false} AfterChain(l: Loader, r: Loader, n: nat)
    requires Sound(l) && Sound(r) && ChainLeaves(l, n, r) && n + 2 >= STACK_SIZE
    requires l.sp == 2 && l.stack[..2] == [NoSection, NoSection]
    ensures Run(r, [Scalar("default_qos"), Scalar("2"), MappingEnd, MappingEnd]).cfg == l.cfg
  {
    SameSlot(r.stack, l.stack, 3, r.sp);
    assert l.stack[..2][r.sp] == l.stack[r.sp];
    SettingOutside(r);
  }

  lemma {:induction false} NestedIs(depth: nat) returns (l: Loader)
    requires depth >= 2
    ensures Sound(l) && l.sp == 2 && l.stack[..2] == [NoSection, NoSection] && l.cfg == DEFAULTS
    ensures l.currentKey == "a" && !l.inKey
    ensures Run(START, Flatten(Nested(depth)))
         == Run(Run(l, Flatten(Chain(depth - 2))), [Scalar("default_qos"), Scalar("2"), MappingEnd, MappingEnd])
  {
    var chain := Flatten(Chain(depth - 2));
    var tail := [Scalar("default_qos"), Scalar("2"), MappingEnd, MappingEnd];
    l := IntoSettings();
    FlattenNested(depth);
    RunAppend(START, [MappingStart, Scalar("settings"), MappingStart, Scalar("a")], chain + tail);
    RunAppend(Run(START, [MappingStart, Scalar("settings"), MappingStart, Scalar("a")]), chain, tail);
  }

  lemma {:induction false} IntoSettings() returns (l: Loader)
    ensures l == Run(START, [MappingStart, Scalar("settings"), MappingStart, Scalar("a")])
    ensures Sound(l) && l.sp == 2 && l.stack[..2] == [NoSection, NoSection] && l.cfg == DEFAULTS
    ensures l.currentKey == "a" && !l.inKey
  {
    RunFour(START, [MappingStart, Scalar("settings"), MappingStart, Scalar("a")]);
    var one := Step(START, MappingStart);
    var two := Step(one, Scalar("settings"));
    var three := Step(two, MappingStart);
    assert SectionFor("", NoSection) == NoSection;
    assert one.stack == START.stack && one.sp == 1;
    l := Step(three, Scalar("a"));
  }

  lemma {:induction false} SettingOutside(l: Loader)
    requires Sound(l) && l.stack[l.sp] == NoSection && l.inKey
    ensures Run(l, [Scalar("default_qos"), Scalar("2"), MappingEnd, MappingEnd]).cfg == l.cfg
  {
    RunFour(l, [Scalar("default_qos"), Scalar("2"), MappingEnd, MappingEnd]);
  }

  lemma {:induction false} RunFour(l: Loader, e: seq<Event>)
    requires Sound(l) && |e| == 4
    ensures Run(l, e) == Step(Step(Step(Step(l, e[0]), e[1]), e[2]), e[3])
  {
    assert e == [e[0]] + [e[1]] + [e[2]] + [e[3]];
    RunAppend(l, [e[0]] + [e[1]] + [e[2]], [e[3]]);
    RunAppend(l, [e[0]] + [e[1]], [e[2]]);
    RunAppend(l, [e[0]], [e[1]]);
    RunOne(l, e[0]);
    RunOne(Step(l, e[0]), e[1]);
    RunOne(Step(Step(l, e[0]), e[1]), e[2]);
    RunOne(Step(Step(Step(l, e[0]), e[1]), e[2]), e[3]);
  }

  lemma {:induction false} FlattenNested(depth: nat)
    requires depth >= 2
    ensures Flatten(Nested(depth))
         == [MappingStart, Scalar("settings"), MappingStart, Scalar("a")]
            + (Flatten(Chain(depth - 2)) + [Scalar("default_qos"), Scalar("2"), MappingEnd, MappingEnd])
  {
    var qos := Entry("default_qos", Leaf("2"), Nil);
    var chained := Entry("a", Chain(depth - 2), qos);
    assert FlattenEntries(Nil) == [];
    assert FlattenEntries(qos) == [Scalar("default_qos")] + Flatten(Leaf("2")) + [];
    assert FlattenEntries(chained) == [Scalar("a")] + Flatten(Chain(depth - 2)) + FlattenEntries(qos);
    var top := Entry("settings", Mapping(chained), Nil);
    assert FlattenEntries(top) == [Scalar("settings")] + ([MappingStart] + FlattenEntries(chained) + [MappingEnd]) + [];
    assert Flatten(Nested(depth)) == [MappingStart] + FlattenEntries(top) + [MappingEnd];
  }

  lemma {:induction false} WalkChain(n: nat, section: Section, cfg: Config)
    ensures Walk(Chain(n), "a", section, cfg) == cfg
  {
    if n == 0 {
      AssignIgnores(cfg, section);
    } else {
      WalkChain(n - 1, section, cfg);
      assert SectionFor("a", section) == section;
      assert WalkEntries(Nil, section, cfg) == cfg;
      assert WalkEntries(Entry("a", Chain(n - 1), Nil), section, cfg) == cfg;
    }
  }

  lemma {:induction false} WalkNested(depth: nat)
    requires depth >= 2
    ensures Walk(Nested(depth), "", NoSection, DEFAULTS).qos == 2
  {
    WalkChain(depth - 2, Settings, DEFAULTS);
    AtoiTwo();
    var qos := Entry("default_qos", Leaf("2"), Nil);
    var chained := Entry("a", Chain(depth - 2), qos);
    var set2 := DEFAULTS.(qos := 2);
    assert Walk(Leaf("2"), "default_qos", Settings, DEFAULTS) == set2;
    assert WalkEntries(qos, Settings, DEFAULTS) == WalkEntries(Nil, Settings, set2) == set2;
    assert WalkEntries(chained, Settings, DEFAULTS) == set2;
    assert SectionFor("settings", NoSection) == Settings;
    var top := Entry("settings", Mapping(chained), Nil);
    assert WalkEntries(top, NoSection, DEFAULTS) == WalkEntries(Nil, NoSection, set2) == set2;
    assert SectionFor("", NoSection) == NoSection;
  }

  lemma {:induction false} AtoiTwo()
    ensures Atoi("2") == 2
  {
    assert "2"[1..] == "";
    assert Digits("", 2) == 2;
    assert Digits("2", 0) == 2;
  }
}
