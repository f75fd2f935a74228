/** `config_update`: all lines of the configuration file, section by section. */
module ConfigFile {
  import opened Prelude
  import opened Text
  import opened BacnetConfig
  import opened ConfigLine

  datatype Section = NoSection | Bacnet | Discovery | LocalDevice | Network | Services | Connection | HotConfig

  /** A text that switches to a section. */
  datatype Marker = Marker(text: string, section: Section)

  /** The markers, in the order in which they are looked for. There is none for mstp. */
  const MARKERS: seq<Marker> :=
    [ Marker("bacnet:", Bacnet), Marker("discovery:", Discovery), Marker("local_device:", LocalDevice),
      Marker("network:", Network), Marker("services:", Services), Marker("connection:", Connection),
      Marker("hot_config:", HotConfig) ]

  /** The section a line switches to: the first marker it contains decides. */
  function SectionOf(line: string, current: Section, markers: seq<Marker>): Section {
    if markers == [] then current
    else if Find(line, markers[0].text).Some? then markers[0].section
    else SectionOf(line, current, markers[1..])
  }

  datatype Key =
    | TargetDeviceStart | TargetDeviceEnd | WhoisRetry | ResponseTimeout
    | InstanceId | MaxApdu
    | Interface | Port | BroadcastAddress
    | ReadTimeout | WriteTimeout | DefaultPriority | CacheExpiry | CacheStrategy | DatalinkMaintenance
    | MaxReconnectAttempts | ReconnectInterval
    | PollingInterval

  function Name(key: Key): string {
    match key
    case TargetDeviceStart => "target_device_start"
    case TargetDeviceEnd => "target_device_end"
    case WhoisRetry => "whois_retry"
    case ResponseTimeout => "response_timeout_ms"
    case InstanceId => "instance_id"
    case MaxApdu => "max_apdu"
    case Interface => "interface"
    case Port => "port"
    case BroadcastAddress => "broadcast_address"
    case ReadTimeout => "read_timeout_ms"
    case WriteTimeout => "write_timeout_ms"
    case DefaultPriority => "default_priority"
    case CacheExpiry => "cache_expiry_ms"
    case CacheStrategy => "cache_strategy"
    case DatalinkMaintenance => "datalink_maintenance_ms"
    case MaxReconnectAttempts => "max_reconnect_attempts"
    case ReconnectInterval => "reconnect_interval_ms"
    case PollingInterval => "polling_interval_ms"
  }

  datatype Update = Update(key: string, value: string)

  /** A numeric field is written unless it is 0. */
  function Number(key: Key, n: nat): seq<Update> {
    if n > 0 then [Update(Name(key), Decimal(n))] else []
  }

  /** A text field is written in quotes unless it is empty. */
  function Quoted(key: Key, text: string): seq<Update> {
    if text != "" then [Update(Name(key), "\"" + text + "\"")] else []
  }

  /** The updates a configuration asks for in each section, in the order in which they are tried. */
  function Updates(cfg: Config, section: Section): seq<Update> {
    match section
    case Discovery =>
      Number(TargetDeviceStart, cfg.targetDeviceStart) + Number(TargetDeviceEnd, cfg.targetDeviceEnd)
      + Number(WhoisRetry, cfg.whoisRetry) + Number(ResponseTimeout, cfg.responseTimeoutMs)
    case LocalDevice => Number(InstanceId, cfg.localInstanceId) + Number(MaxApdu, cfg.localMaxApdu)
    case Network =>
      Quoted(Interface, cfg.interfaceName) + Number(Port, cfg.port) + Quoted(BroadcastAddress, cfg.broadcastAddress)
    case Services =>
      Number(ReadTimeout, cfg.readTimeoutMs) + Number(WriteTimeout, cfg.writeTimeoutMs)
      + Number(DefaultPriority, cfg.defaultPriority) + Number(CacheExpiry, cfg.cacheExpiryMs)
      + [Update(Name(CacheStrategy), Decimal(cfg.cacheStrategy))]
      + Number(DatalinkMaintenance, cfg.datalinkMaintenanceMs)
    case Connection =>
      Number(MaxReconnectAttempts, cfg.maxReconnectAttempts) + Number(ReconnectInterval, cfg.reconnectIntervalMs)
    case HotConfig => Number(PollingInterval, cfg.hotConfigPollingMs)
    case _ => []
  }

  function UpdateOne(line: string, u: Update): string {
    match Put(line, u.key, u.value)
    case Some(updated) => updated
    case None => line
  }

  /** The updates of a section are tried on a line one after the other. */
  function UpdateAll(line: string, ups: seq<Update>): string
    decreases |ups|
  {
    if ups == [] then line else UpdateAll(UpdateOne(line, ups[0]), ups[1..])
  }

  /** What `config_update` looks for in the file: markers, and in each section the keys and their new values. */
  datatype Layout = Layout(markers: seq<Marker>, updates: Section -> seq<Update>)

  function LayoutOf(cfg: Config): Layout {
    Layout(MARKERS, section => Updates(cfg, section))
  }

  function UpdateLines(lines: seq<string>, current: Section, layout: Layout): (r: seq<string>)
    ensures |r| == |lines|
  {
    if lines == [] then []
    else
      var section := SectionOf(lines[0], current, layout.markers);
      [UpdateAll(lines[0], layout.updates(section))] + UpdateLines(lines[1..], section, layout)
  }

  /** The section line `n` is updated in. */
  function SectionAt(lines: seq<string>, n: nat, current: Section, layout: Layout): Section
    requires n < |lines|
  {
    var section := SectionOf(lines[0], current, layout.markers);
    if n == 0 then section else SectionAt(lines[1..], n - 1, section, layout)
  }

  method UpdateEveryLine(lines: array<string>, layout: Layout)
    modifies lines
    ensures lines[..] == UpdateLines(old(lines[..]), NoSection, layout)
  {
    ghost var before := lines[..];
    var section := NoSection;
    var n := 0;
    while n < lines.Length
      invariant n <= lines.Length
      invariant lines[n..] == before[n..]
      invariant lines[..n] + UpdateLines(before[n..], section, layout) == UpdateLines(before, NoSection, layout)
    {
      ghost var done := lines[..n];
      assert lines[n] == before[n];
      UpdateStep(before, n, section, layout);
      section := SectionOf(lines[n], section, layout.markers);
      lines[n] := UpdateInSection(lines[n], layout.updates(section));
      Regroup(done, lines[n], UpdateLines(before[n + 1..], section, layout));
      assert lines[..n + 1] == done + [lines[n]];
      n := n + 1;
    }
  }

  lemma {:induction false} Regroup(done: seq<string>, line: string, rest: seq<string>)
    ensures (done + [line]) + rest == done + ([line] + rest)
  {
  }

  lemma {:induction false} UpdateStep(lines: seq<string>, n: nat, current: Section, layout: Layout)
    requires n < |lines|
    ensures var section := SectionOf(lines[n], current, layout.markers);
            UpdateLines(lines[n..], current, layout)
            == [UpdateAll(lines[n], layout.updates(section))] + UpdateLines(lines[n + 1..], section, layout)
  {
    assert lines[n..][0] == lines[n] && lines[n..][1..] == lines[n + 1..];
  }

  /** The chain of `update_line` calls for one line. */
  method UpdateInSection(line: string, ups: seq<Update>) returns (newLine: string)
    ensures newLine == UpdateAll(line, ups)
  {
    newLine := line;
    var k := 0;
    while k < |ups|
      invariant k <= |ups|
      invariant UpdateAll(newLine, ups[k..]) == UpdateAll(line, ups)
    {
      var ok, updated := UpdateLine(newLine, ups[k].key, ups[k].value);
      assert updated == UpdateOne(newLine, ups[k]);
      newLine := updated;
      assert ups[k..][1..] == ups[k + 1..];
      k := k + 1;
    }
  }

  // ---------------------------------------------------------------------------------------------
  // What stays

  /** The lines with a function of line and section applied to each. */
  function MapLines(lines: seq<string>, current: Section, layout: Layout, f: (string, Section) -> string)
    : (r: seq<string>)
    ensures |r| == |lines|
  {
    if lines == [] then []
    else
      var section := SectionOf(lines[0], current, layout.markers);
      [f(lines[0], section)] + MapLines(lines[1..], section, layout, f)
  }

  lemma {:induction false} MapAt(
    lines: seq<string>, current: Section, layout: Layout, f: (string, Section) -> string, n: nat)
    requires n < |lines|
    ensures MapLines(lines, current, layout, f)[n] == f(lines[n], SectionAt(lines, n, current, layout))
  {
    if n > 0 {
      MapAt(lines[1..], SectionOf(lines[0], current, layout.markers), layout, f, n - 1);
    }
  }

  function Updater(layout: Layout): (string, Section) -> string {
    (line, section) => UpdateAll(line, layout.updates(section))
  }

  lemma {:induction false} UpdateIsMap(lines: seq<string>, current: Section, layout: Layout)
    ensures UpdateLines(lines, current, layout) == MapLines(lines, current, layout, Updater(layout))
  {
    if lines != [] {
      UpdateIsMap(lines[1..], SectionOf(lines[0], current, layout.markers), layout);
    }
  }

  /** Each line is updated on its own, in the section that the lines up to it have led to. */
  lemma {:induction false} LineAt(lines: seq<string>, current: Section, layout: Layout, n: nat)
    requires n < |lines|
    ensures UpdateLines(lines, current, layout)[n]
         == UpdateAll(lines[n], layout.updates(SectionAt(lines, n, current, layout)))
  {
    UpdateIsMap(lines, current, layout);
    MapAt(lines, current, layout, Updater(layout), n);
  }

  /** The line holds none of the keys. */
  predicate NoKeys(line: string, ups: seq<Update>) {
    forall a :: 0 <= a < |ups| ==> Parse(line, ups[a].key).None?
  }

  /**
   The number and order of lines stay, and a line that holds no key of its section stays byte for byte.
   */
  lemma {:induction false} OtherLinesStay(lines: seq<string>, current: Section, layout: Layout, n: nat)
    requires n < |lines| && NoKeys(lines[n], layout.updates(SectionAt(lines, n, current, layout)))
    ensures UpdateLines(lines, current, layout)[n] == lines[n]
  {
    NoKeyNoChange(lines[n], layout.updates(SectionAt(lines, n, current, layout)));
    LineAt(lines, current, layout, n);
  }

  lemma {:induction false} NoKeyNoChange(line: string, ups: seq<Update>)
    requires NoKeys(line, ups)
    ensures UpdateAll(line, ups) == line
  {
    if ups != [] {
      assert UpdateOne(line, ups[0]) == line;
      NoKeyNoChange(line, ups[1..]);
    }
  }

  lemma {:induction false} UpdateAllAppend(line: string, some: seq<Update>, more: seq<Update>)
    ensures UpdateAll(line, some + more) == UpdateAll(UpdateAll(line, some), more)
    decreases |some|
  {
    if some == [] {
      assert some + more == more;
    } else {
      assert (some + more)[1..] == some[1..] + more;
      UpdateAllAppend(UpdateOne(line, some[0]), some[1..], more);
    }
  }

  /** The updates before the one that finds its key change nothing, and neither do those after it. */
  lemma {:induction false} OneKeyOneChange(line: string, ups: seq<Update>, a: nat, line': string)
    requires a < |ups| && UpdateOne(line, ups[a]) == line'
    requires NoKeys(line, ups[..a]) && NoKeys(line', ups[a + 1..])
    ensures UpdateAll(line, ups) == line'
  {
    NoKeyNoChange(line, ups[..a]);
    NoKeyNoChange(line', ups[a + 1..]);
    InThree(line, ups, a, line');
  }

  lemma {:induction false} InThree(line: string, ups: seq<Update>, a: nat, line': string)
    requires a < |ups| && UpdateOne(line, ups[a]) == line'
    requires UpdateAll(line, ups[..a]) == line && UpdateAll(line', ups[a + 1..]) == line'
    ensures UpdateAll(line, ups) == line'
  {
    UpdateAllAppend(line, ups[..a], ups[a..]);
    assert ups[..a] + ups[a..] == ups && ups[a..][0] == ups[a] && ups[a..][1..] == ups[a + 1..];
  }

  // ---------------------------------------------------------------------------------------------
  // Words in updated lines

  /** Keys and markers: no blank, no '#', and a colon at most at the end. */
  predicate IsWord(m: string) {
    && m != "" && 'a' <= m[0] <= 'z'
    && (forall j :: 0 <= j < |m| ==> !IsBlank(m[j]) && m[j] != '#')
    && (forall j :: 0 <= j < |m| - 1 ==> m[j] != ':')
  }

  predicate IsKey(m: string) {
    IsWord(m) && m[|m| - 1] != ':'
  }

  /** A line cut into the text up to a colon, a gap, a value and a comment. */
  datatype Cut = Cut(head: string, gap: string, value: string, comment: string)

  ghost predicate CutOf(line: string, c: Cut) {
    && line == c.head + c.gap + c.value + c.comment
    && c.head != "" && c.head[|c.head| - 1] == ':'
    && (forall j :: 0 <= j < |c.gap| ==> IsGap(c.gap[j]))
    && IsComment(c.comment)
  }

  predicate Absent(s: string, m: string) {
    forall i | 0 <= i <= |s| :: !At(s, m, i)
  }

  lemma {:induction false} AcrossHead(line: string, c: Cut, m: string, i: nat)
    requires CutOf(line, c) && At(line, m, i)
    ensures i < |c.head| < i + |m| ==> m[|c.head| - 1 - i] == ':'
  {
    if i < |c.head| < i + |m| {
      var j := |c.head| - 1 - i;
      assert line[i + j] == m[j];
    }
  }

  lemma {:induction false} InGap(line: string, c: Cut, m: string, i: nat)
    requires CutOf(line, c) && At(line, m, i) && m != ""
    ensures |c.head| <= i < |c.head| + |c.gap| ==> IsGap(m[0])
  {
    assert line[i + 0] == m[0];
    if |c.head| <= i < |c.head| + |c.gap| {
      assert line[i] == c.gap[i - |c.head|];
    }
  }

  lemma {:induction false} AcrossComment(line: string, c: Cut, m: string, i: nat)
    requires CutOf(line, c) && At(line, m, i)
    ensures var end := |line| - |c.comment|;
            i < end < i + |m| ==> m[end - i] == '#'
  {
    var end := |line| - |c.comment|;
    if i < end < i + |m| {
      var j := end - i;
      assert line[i + j] == m[j];
      assert line[end] == c.comment[0];
    }
  }

  lemma {:induction false} InValue(line: string, c: Cut, m: string, i: nat)
    requires CutOf(line, c) && At(line, m, i)
    ensures var from, end := |c.head| + |c.gap|, |line| - |c.comment|;
            from <= i && i + |m| <= end ==> At(c.value, m, i - from)
  {
    var from, end := |c.head| + |c.gap|, |line| - |c.comment|;
    if from <= i && i + |m| <= end {
      assert forall j :: i <= j < i + |m| ==> line[j] == c.value[j - i + (i - from)];
      AtAgree(line, i, c.value, i - from, m);
    }
  }

  /** A word that is not in the value stands in the head or in the comment. */
  lemma {:induction false} WordPlaces(line: string, c: Cut, m: string, i: nat)
    requires CutOf(line, c) && IsWord(m) && Absent(c.value, m) && At(line, m, i)
    ensures i + |m| <= |c.head| || |line| - |c.comment| <= i
  {
    AcrossHead(line, c, m, i);
    InGap(line, c, m, i);
    AcrossComment(line, c, m, i);
    InValue(line, c, m, i);
  }

  /** Where a word of one line stands in another line with the same head and comment. */
  function Moved(i: nat, m: string, from: string, to: string, head: string): int {
    if i + |m| <= |head| then i else i - |from| + |to|
  }

  lemma {:induction false} WordMoves(line: string, c: Cut, line': string, c': Cut, m: string, i: nat)
    requires CutOf(line, c) && CutOf(line', c') && c.head == c'.head && c.comment == c'.comment
    requires IsWord(m) && Absent(c.value, m) && At(line, m, i)
    ensures At(line', m, Moved(i, m, line, line', c.head))
  {
    WordPlaces(line, c, m, i);
    if i + |m| <= |c.head| {
      assert forall j :: i <= j < i + |m| ==> line[j] == c.head[j] == line'[j];
      AtAgree(line, i, line', i, m);
    } else {
      var i' := i - |line| + |line'|;
      assert forall j :: i <= j < i + |m| ==> line[j] == c.comment[j - (|line| - |c.comment|)] == line'[j - i + i'];
      AtAgree(line, i, line', i', m);
    }
  }

  /** Two such lines hold the same words. */
  lemma {:induction false} SameWords(line: string, c: Cut, line': string, c': Cut, m: string)
    requires CutOf(line, c) && CutOf(line', c') && c.head == c'.head && c.comment == c'.comment
    requires IsWord(m) && Absent(c.value, m) && Absent(c'.value, m)
    ensures Find(line, m).Some? <==> Find(line', m).Some?
  {
    FindIsFirst(line, m);
    FindIsFirst(line', m);
    if i: nat :| i <= |line| && At(line, m, i) {
      WordMoves(line, c, line', c', m, i);
    }
    if i: nat :| i <= |line'| && At(line', m, i) {
      WordMoves(line', c', line, c, m, i);
    }
  }

  /** Where the key stands first in the original line, if it stands first at `pos'` in the changed one. */
  lemma {:induction false} FirstMoves(line: string, c: Cut, line': string, c': Cut, k: string, pos': nat)
    requires CutOf(line, c) && CutOf(line', c') && c.head == c'.head && c.comment == c'.comment
    requires IsWord(k) && Absent(c.value, k) && Absent(c'.value, k)
    requires Find(line', k) == Some(pos')
    ensures var pos := Moved(pos', k, line', line, c.head);
            pos >= 0 && Find(line, k) == Some(pos)
    ensures At(line', k, pos') && (pos' + |k| <= |c.head| || |line'| - |c.comment| <= pos')
  {
    assert At(line', k, pos') by { FindIsFirst(line', k); }
    WordPlaces(line', c', k, pos');
    WordMoves(line', c', line, c, k, pos');
    var pos := Moved(pos', k, line', line, c.head);
    forall i | 0 <= i < pos && At(line, k, i)
      ensures 0 <= Moved(i, k, line, line', c.head) < pos' && At(line', k, Moved(i, k, line, line', c.head))
    {
      WordPlaces(line, c, k, i);
      WordMoves(line, c, line', c', k, i);
    }
    FindIsFirst(line', k);
    FindFirst(line, k, pos);
  }

  /** A key that the changed line holds, the original line held. */
  lemma {:induction false} NoNewKey(line: string, c: Cut, line': string, c': Cut, k: string)
    requires CutOf(line, c) && CutOf(line', c') && c.head == c'.head && c.comment == c'.comment
    requires IsKey(k) && Absent(c.value, k) && Absent(c'.value, k)
    requires exists i :: |c.head| <= i < |line| && !IsGap(line[i])
    requires Parse(line', k).Some?
    ensures Parse(line, k).Some?
  {
    KeyStands(line', k);
    NoNewKeyAt(line, c, line', c', k, Locate(line', k).value - |k|);
  }

  lemma {:induction false} KeyStands(line: string, k: string)
    requires Parse(line, k).Some?
    ensures Locate(line, k).value >= |k| && Find(line, k) == Some(Locate(line, k).value - |k|)
  {
  }

  lemma {:induction false} NoNewKeyAt(line: string, c: Cut, line': string, c': Cut, k: string, pos': nat)
    requires CutOf(line, c) && CutOf(line', c') && c.head == c'.head && c.comment == c'.comment
    requires IsKey(k) && Absent(c.value, k) && Absent(c'.value, k)
    requires exists i :: |c.head| <= i < |line| && !IsGap(line[i])
    requires Find(line', k) == Some(pos') && Locate(line', k) == Some(pos' + |k|) && Parse(line', k).Some?
    ensures Parse(line, k).Some?
  {
    FirstMoves(line, c, line', c', k, pos');
    if pos' + |k| <= |c.head| {
      ColonOfHead(line, c, line', c', k, pos');
    } else {
      ColonOfComment(line, c, line', c', k, pos' - |line'| + |line|, pos');
    }
  }

  lemma {:induction false} ColonOfHead(line: string, c: Cut, line': string, c': Cut, k: string, pos: nat)
    requires CutOf(line, c) && CutOf(line', c') && c.head == c'.head && pos + |k| <= |c.head|
    requires exists i :: |c.head| <= i < |line| && !IsGap(line[i])
    requires IsKey(k) && At(line', k, pos) && Find(line, k) == Some(pos) && Locate(line', k) == Some(pos + |k|)
    ensures Parse(line, k).Some?
  {
    KeyEndsBefore(line', c', k, pos);
    ColonInHead(line, c, line', c', pos + |k|);
    LocateIs(line, k, pos);
  }

  lemma {:induction false} ColonOfComment(
    line: string, c: Cut, line': string, c': Cut, k: string, pos: nat, pos': nat)
    requires CutOf(line, c) && CutOf(line', c') && c.comment == c'.comment
    requires |line'| - |c.comment| <= pos' && |line| - pos == |line'| - pos'
    requires Find(line, k) == Some(pos) && Locate(line', k) == Some(pos' + |k|) && Parse(line', k).Some?
    ensures Parse(line, k).Some?
  {
    SameEnd(line, c, line', c', pos + |k|, pos' + |k|);
    SameField(line, line', k, pos, pos');
  }

  /** The same stands behind the key. */
  lemma {:induction false} SameField(line: string, line': string, k: string, pos: nat, pos': nat)
    requires Find(line, k) == Some(pos) && Locate(line', k) == Some(pos' + |k|) && Parse(line', k).Some?
    requires pos + |k| < |line| && line[pos + |k|] == line'[pos' + |k|] && line[pos + |k|..] == line'[pos' + |k|..]
    ensures Parse(line, k).Some?
  {
    LocateIs(line, k, pos);
  }

  lemma {:induction false} ColonInHead(line: string, c: Cut, line': string, c': Cut, colon: nat)
    requires CutOf(line, c) && CutOf(line', c') && c.head == c'.head && colon < |c.head|
    requires exists i :: |c.head| <= i < |line| && !IsGap(line[i])
    ensures line[colon] == line'[colon] && Split(line[colon..]).Some?
  {
    assert line[colon] == c.head[colon] && line'[colon] == c'.head[colon];
    var i :| |c.head| <= i < |line| && !IsGap(line[i]);
    assert line[colon..][i - colon] == line[i];
    SplitSound(line[colon..]);
  }

  lemma {:induction false} KeyEndsBefore(line: string, c: Cut, k: string, pos: nat)
    requires CutOf(line, c) && IsKey(k) && At(line, k, pos) && pos + |k| <= |c.head|
    ensures pos + |k| < |c.head|
  {
    var j := |k| - 1;
    assert line[pos + j] == k[j];
    assert line[|c.head| - 1] == c.head[|c.head| - 1] == ':';
  }

  lemma {:induction false} SameEnd(line: string, c: Cut, line': string, c': Cut, n: nat, n': nat)
    requires CutOf(line, c) && CutOf(line', c') && c.comment == c'.comment
    requires |line| - |c.comment| <= n <= |line| && |line| - n == |line'| - n'
    ensures line[n..] == line'[n'..]
    ensures n < |line| ==> line[n] == line'[n']
  {
    var d := n - (|line| - |c.comment|);
    assert line[n..] == c.comment[d..];
    assert line'[n'..] == c.comment[d..];
    assert n < |line| ==> line[n] == line[n..][0] && line'[n'] == line'[n'..][0];
  }

  // ---------------------------------------------------------------------------------------------
  // One line, updated twice

  ghost predicate KeysSound(ups: seq<Update>) {
    forall a :: 0 <= a < |ups| ==> IsKey(ups[a].key)
  }

  lemma {:induction false} NameIsKey(key: Key)
    ensures IsKey(Name(key))
  {
    match key
    case TargetDeviceStart => TargetNames(key);
    case TargetDeviceEnd => TargetNames(key);
    case WhoisRetry => DiscoveryNames(key);
    case ResponseTimeout => DiscoveryNames(key);
    case InstanceId => DeviceNames(key);
    case MaxApdu => DeviceNames(key);
    case Interface => NetworkNames(key);
    case Port => NetworkNames(key);
    case BroadcastAddress => NetworkNames(key);
    case ReadTimeout => TimeoutNames(key);
    case WriteTimeout => TimeoutNames(key);
    case DefaultPriority => PriorityNames(key);
    case CacheExpiry => PriorityNames(key);
    case CacheStrategy => CacheNames(key);
    case DatalinkMaintenance => MaintenanceNames(key);
    case MaxReconnectAttempts => AttemptsNames(key);
    case ReconnectInterval => IntervalNames(key);
    case PollingInterval => PollingNames(key);
  }

  lemma {:induction false} TargetNames(key: Key)
    requires key.TargetDeviceStart? || key.TargetDeviceEnd?
    ensures IsKey(Name(key))
  {
  }

  lemma {:induction false} DiscoveryNames(key: Key)
    requires key.WhoisRetry? || key.ResponseTimeout?
    ensures IsKey(Name(key))
  {
  }

  lemma {:induction false} DeviceNames(key: Key)
    requires key.InstanceId? || key.MaxApdu?
    ensures IsKey(Name(key))
  {
  }

  lemma {:induction false} NetworkNames(key: Key)
    requires key.Interface? || key.Port? || key.BroadcastAddress?
    ensures IsKey(Name(key))
  {
  }

  lemma {:induction false} TimeoutNames(key: Key)
    requires key.ReadTimeout? || key.WriteTimeout?
    ensures IsKey(Name(key))
  {
  }

  lemma {:induction false} PriorityNames(key: Key)
    requires key.DefaultPriority? || key.CacheExpiry?
    ensures IsKey(Name(key))
  {
  }

  lemma {:induction false} CacheNames(key: Key)
    requires key.CacheStrategy?
    ensures IsKey(Name(key))
  {
  }

  lemma {:induction false} MaintenanceNames(key: Key)
    requires key.DatalinkMaintenance?
    ensures IsKey(Name(key))
  {
  }

  lemma {:induction false} AttemptsNames(key: Key)
    requires key.MaxReconnectAttempts?
    ensures IsKey(Name(key))
  {
  }

  lemma {:induction false} IntervalNames(key: Key)
    requires key.ReconnectInterval?
    ensures IsKey(Name(key))
  {
  }

  lemma {:induction false} PollingNames(key: Key)
    requires key.PollingInterval?
    ensures IsKey(Name(key))
  {
  }

  lemma {:induction false} NumberSound(key: Key, n: nat)
    ensures KeysSound(Number(key, n))
  {
    NameIsKey(key);
  }

  lemma {:induction false} QuotedSound(key: Key, text: string)
    ensures KeysSound(Quoted(key, text))
  {
    NameIsKey(key);
  }

  /** Every key `config_update` looks for is a key. */
  lemma {:induction false} UpdatesSound(cfg: Config, section: Section)
    ensures KeysSound(Updates(cfg, section))
  {
    match section
    case Discovery =>
      NumberSound(TargetDeviceStart, cfg.targetDeviceStart);
      NumberSound(TargetDeviceEnd, cfg.targetDeviceEnd);
      NumberSound(WhoisRetry, cfg.whoisRetry);
      NumberSound(ResponseTimeout, cfg.responseTimeoutMs);
    case LocalDevice =>
      NumberSound(InstanceId, cfg.localInstanceId);
      NumberSound(MaxApdu, cfg.localMaxApdu);
    case Network =>
      QuotedSound(Interface, cfg.interfaceName);
      NumberSound(Port, cfg.port);
      QuotedSound(BroadcastAddress, cfg.broadcastAddress);
    case Services => ServicesSound(cfg);
    case Connection =>
      NumberSound(MaxReconnectAttempts, cfg.maxReconnectAttempts);
      NumberSound(ReconnectInterval, cfg.reconnectIntervalMs);
    case HotConfig => NumberSound(PollingInterval, cfg.hotConfigPollingMs);
    case _ =>
  }

  lemma {:induction false} ServicesSound(cfg: Config)
    ensures KeysSound(Updates(cfg, Services))
  {
    NumberSound(ReadTimeout, cfg.readTimeoutMs);
    NumberSound(WriteTimeout, cfg.writeTimeoutMs);
    NumberSound(DefaultPriority, cfg.defaultPriority);
    NumberSound(CacheExpiry, cfg.cacheExpiryMs);
    NameIsKey(CacheStrategy);
    NumberSound(DatalinkMaintenance, cfg.datalinkMaintenanceMs);
  }

  ghost predicate LayoutSound(layout: Layout) {
    && (forall n :: 0 <= n < |layout.markers| ==> IsWord(layout.markers[n].text))
    && (forall section :: KeysSound(layout.updates(section)))
  }

  /** The markers and keys `config_update` looks for are words. */
  lemma {:induction false} LayoutIsSound(cfg: Config)
    ensures LayoutSound(LayoutOf(cfg))
  {
    MarkersAreWords();
    forall section ensures KeysSound(LayoutOf(cfg).updates(section)) {
      UpdatesSound(cfg, section);
    }
  }

  lemma {:induction false} MarkersAreWords()
    ensures forall n :: 0 <= n < |MARKERS| ==> IsWord(MARKERS[n].text)
  {
    assert IsWord("bacnet:") && IsWord("network:") && IsWord("services:");
    LongMarkersAreWords();
  }

  lemma {:induction false} LongMarkersAreWords()
    ensures IsWord("discovery:") && IsWord("local_device:") && IsWord("connection:") && IsWord("hot_config:")
  {
  }

  ghost predicate Unmarked(value: string, markers: seq<Marker>) {
    forall n :: 0 <= n < |markers| ==> Absent(value, markers[n].text)
  }

  /** The line with its new value holds none of the other keys. */
  predicate Alone(line: string, ups: seq<Update>, a: nat)
    requires a < |ups|
  {
    forall b :: 0 <= b < |ups| && b != a ==> Parse(UpdateOne(line, ups[a]), ups[b].key).None?
  }

  /**
   At most one key stands in the line; if one does, its new value holds no '#', neither its old value nor its new one
   holds a marker, and the line with the new value holds none of the other keys.
   */
  ghost predicate Tame(line: string, markers: seq<Marker>, ups: seq<Update>) {
    && (forall a, b | 0 <= a < |ups| && 0 <= b < |ups| ::
          Parse(line, ups[a].key).Some? && Parse(line, ups[b].key).Some? ==> a == b)
    && (forall a :: 0 <= a < |ups| && Parse(line, ups[a].key).Some? ==>
          && '#' !in ups[a].value
          && Unmarked(ups[a].value, markers) && Unmarked(Parse(line, ups[a].key).value.value, markers)
          && Alone(line, ups, a))
  }

  function CutLine(line: string, key: string): Cut
    requires Parse(line, key).Some?
  {
    var f, colon := Parse(line, key).value, Locate(line, key).value;
    Cut(line[..colon] + ":", if f.gap == "" then "" else f.gap[1..], f.value, f.comment)
  }

  lemma {:induction false} CutIsCut(line: string, key: string)
    requires Parse(line, key).Some?
    ensures CutOf(line, CutLine(line, key))
    ensures exists i :: |CutLine(line, key).head| <= i < |line| && !IsGap(line[i])
  {
    var f, colon := Parse(line, key).value, Locate(line, key).value;
    SplitSound(line[colon..]);
    RestIsCut(line[..colon], f);
    assert line == line[..colon] + Joined(f);
    assert line[colon..][0] == ':';
  }

  lemma {:induction false} RestIsCut(prefix: string, f: Field)
    requires WellFormed(f) && Joined(f)[0] == ':'
    ensures f.gap != ""
    ensures CutOf(prefix + Joined(f), Cut(prefix + ":", f.gap[1..], f.value, f.comment))
    ensures exists i :: |prefix| + 1 <= i < |prefix + Joined(f)| && !IsGap((prefix + Joined(f))[i])
  {
    assert f.value != "" ==> Joined(f)[|f.gap|] == f.value[0];
    assert f.value == "" ==> Joined(f)[|f.gap|] == f.comment[0];
    assert f.gap != "";
    assert f.gap[0] == Joined(f)[0];
    assert f.gap == ":" + f.gap[1..];
    assert (prefix + Joined(f))[|prefix| + |f.gap|] == Joined(f)[|f.gap|];
  }

  /** What the update puts between the new value and the comment. */
  function PutPadding(line: string, key: string, value: string): (s: string)
    requires Parse(line, key).Some?
    ensures forall j :: 0 <= j < |s| ==> IsBlank(s[j])
  {
    if Parse(line, key).value.comment == "" then "\n" else Padding(Locate(line, key).value + 2 + |value|)
  }

  /** The updated line cut at the same head; the padding goes with the value. */
  function CutPut(line: string, key: string, value: string): Cut
    requires Parse(line, key).Some?
  {
    var f, colon := Parse(line, key).value, Locate(line, key).value;
    Cut(line[..colon] + ":", " ", value + PutPadding(line, key, value), f.comment)
  }

  lemma {:induction false} CutPutIsCut(line: string, key: string, value: string)
    requires Parse(line, key).Some?
    ensures CutOf(Put(line, key, value).value, CutPut(line, key, value))
  {
    var f, colon := Parse(line, key).value, Locate(line, key).value;
    CommentFound(line, key);
    PutIsCut(line[..colon], value, f.comment);
  }

  lemma {:induction false} PutIsCut(prefix: string, value: string, comment: string)
    ensures var padding := if comment == "" then "\n" else Padding(|prefix| + 2 + |value|);
            prefix + NewRest(|prefix|, value, comment) == (prefix + ":") + " " + (value + padding) + comment
  {
  }

  lemma {:induction false} InPadded(value: string, padding: string, m: string, i: nat)
    requires At(value + padding, m, i) && m != ""
    requires forall j :: 0 <= j < |padding| ==> IsBlank(padding[j])
    ensures i + |m| <= |value| ==> At(value, m, i)
    ensures i + |m| > |value| ==> IsBlank(m[if i < |value| then |value| - i else 0])
  {
    if i + |m| <= |value| {
      assert forall j :: i <= j < i + |m| ==> (value + padding)[j] == value[j - i + i];
      AtAgree(value + padding, i, value, i, m);
    } else {
      var j := if i < |value| then |value| - i else 0;
      assert (value + padding)[i + j] == m[j];
      assert (value + padding)[i + j] == padding[i + j - |value|];
    }
  }

  lemma {:induction false} AbsentInPadded(value: string, padding: string, m: string)
    requires IsWord(m) && Absent(value, m)
    requires forall j :: 0 <= j < |padding| ==> IsBlank(padding[j])
    ensures Absent(value + padding, m)
  {
    forall i | 0 <= i <= |value + padding|
      ensures !At(value + padding, m, i)
    {
      if At(value + padding, m, i) {
        InPadded(value, padding, m, i);
      }
    }
  }

  /** An update of a tame line leaves its markers as they were. */
  lemma {:induction false} MarkersKept(line: string, markers: seq<Marker>, key: string, value: string)
    requires forall n :: 0 <= n < |markers| ==> IsWord(markers[n].text)
    requires Parse(line, key).Some?
    requires Unmarked(value, markers) && Unmarked(Parse(line, key).value.value, markers)
    ensures forall n :: 0 <= n < |markers| ==>
              (Find(line, markers[n].text).Some? <==> Find(Put(line, key, value).value, markers[n].text).Some?)
  {
    forall n | 0 <= n < |markers|
      ensures Find(line, markers[n].text).Some? <==> Find(Put(line, key, value).value, markers[n].text).Some?
    {
      WordKept(line, key, value, markers[n].text);
    }
  }

  lemma {:induction false} WordKept(line: string, key: string, value: string, m: string)
    requires Parse(line, key).Some? && IsWord(m) && Absent(value, m) && Absent(Parse(line, key).value.value, m)
    ensures Find(line, m).Some? <==> Find(Put(line, key, value).value, m).Some?
  {
    CutIsCut(line, key);
    CutPutIsCut(line, key, value);
    AbsentInPadded(value, PutPadding(line, key, value), m);
    SameWords(line, CutLine(line, key), Put(line, key, value).value, CutPut(line, key, value), m);
  }

  /** An update brings no key to light that neither the new value nor the old one holds. */
  lemma {:induction false} KeyNotGained(line: string, key: string, value: string, k: string)
    requires Parse(line, key).Some? && IsKey(k) && Absent(value, k) && Absent(Parse(line, key).value.value, k)
    ensures Parse(Put(line, key, value).value, k).Some? ==> Parse(line, k).Some?
  {
    CutIsCut(line, key);
    CutPutIsCut(line, key, value);
    AbsentInPadded(value, PutPadding(line, key, value), k);
    if Parse(Put(line, key, value).value, k).Some? {
      NoNewKey(line, CutLine(line, key), Put(line, key, value).value, CutPut(line, key, value), k);
    }
  }

  /** Values that hold no other key of the section leave the line alone. */
  lemma {:induction false} PlainValuesAreAlone(line: string, ups: seq<Update>, a: nat)
    requires KeysSound(ups) && a < |ups| && Parse(line, ups[a].key).Some?
    requires forall b :: 0 <= b < |ups| && b != a ==>
               && Parse(line, ups[b].key).None?
               && Absent(ups[a].value, ups[b].key) && Absent(Parse(line, ups[a].key).value.value, ups[b].key)
    ensures Alone(line, ups, a)
  {
    forall b | 0 <= b < |ups| && b != a
      ensures Parse(UpdateOne(line, ups[a]), ups[b].key).None?
    {
      KeyNotGained(line, ups[a].key, ups[a].value, ups[b].key);
    }
  }

  lemma {:induction false} SameSection(line: string, line': string, current: Section, markers: seq<Marker>)
    requires forall n :: 0 <= n < |markers| ==>
               (Find(line, markers[n].text).Some? <==> Find(line', markers[n].text).Some?)
    ensures SectionOf(line', current, markers) == SectionOf(line, current, markers)
  {
    if markers != [] {
      SameSection(line, line', current, markers[1..]);
    }
  }

  lemma {:induction false} OthersHoldNothing(line: string, ups: seq<Update>, a: nat)
    requires a < |ups| && forall b :: 0 <= b < |ups| && b != a ==> Parse(line, ups[b].key).None?
    ensures NoKeys(line, ups[..a]) && NoKeys(line, ups[a + 1..])
  {
  }

  /** A value free of '#' that stands in a line in the layout of an update is left as it is by the same update. */
  lemma {:induction false} RewrittenStays(line: string, key: string, value: string, comment: string)
    requires Parse(line, key).Some? && IsComment(comment) && '#' !in value
    ensures var colon := Locate(line, key).value;
            var line' := line[..colon] + NewRest(colon, value, comment);
            Put(line', key, value) == Some(line') && Locate(line', key) == Some(colon)
  {
    var colon := Locate(line, key).value;
    var rest := NewRest(colon, value, comment);
    LocateKept(line, key, rest);
    var line' := line[..colon] + rest;
    assert line'[colon..] == rest && line'[..colon] == line[..colon];
    CommentKept(colon, value, comment);
  }

  lemma {:induction false} TameTwice(line: string, markers: seq<Marker>, ups: seq<Update>, current: Section)
    requires forall n :: 0 <= n < |markers| ==> IsWord(markers[n].text)
    requires Tame(line, markers, ups)
    ensures var line' := UpdateAll(line, ups);
            && UpdateAll(line', ups) == line'
            && SectionOf(line', current, markers) == SectionOf(line, current, markers)
  {
    if a :| 0 <= a < |ups| && Parse(line, ups[a].key).Some? {
      var line' := UpdateOne(line, ups[a]);
      MarkersKept(line, markers, ups[a].key, ups[a].value);
      SameSection(line, line', current, markers);
      PutPut(line, ups[a].key, ups[a].value, ups[a].value);
      assert UpdateOne(line', ups[a]) == line';
      OthersHoldNothing(line, ups, a);
      OthersHoldNothing(line', ups, a);
      OneKeyOneChange(line, ups, a, line');
      OneKeyOneChange(line', ups, a, line');
    } else {
      NoKeyNoChange(line, ups);
    }
  }

  ghost predicate TameFile(lines: seq<string>, current: Section, layout: Layout) {
    forall n :: 0 <= n < |lines| ==>
      Tame(lines[n], layout.markers, layout.updates(SectionAt(lines, n, current, layout)))
  }

  /** Updating twice is the same as updating once. */
  lemma {:induction false} UpdateTwice(lines: seq<string>, current: Section, layout: Layout)
    requires LayoutSound(layout) && TameFile(lines, current, layout)
    ensures UpdateLines(UpdateLines(lines, current, layout), current, layout) == UpdateLines(lines, current, layout)
  {
    if lines != [] {
      var section := SectionOf(lines[0], current, layout.markers);
      assert SectionAt(lines, 0, current, layout) == section;
      forall n | 0 <= n < |lines[1..]|
        ensures Tame(lines[1..][n], layout.markers, layout.updates(SectionAt(lines[1..], n, section, layout)))
      {
        assert SectionAt(lines, n + 1, current, layout) == SectionAt(lines[1..], n, section, layout);
        assert Tame(lines[n + 1], layout.markers, layout.updates(SectionAt(lines, n + 1, current, layout)));
      }
      UpdateTwice(lines[1..], section, layout);
      TameTwice(lines[0], layout.markers, layout.updates(section), current);
      var once := UpdateLines(lines, current, layout);
      assert once[1..] == UpdateLines(lines[1..], section, layout);
    }
  }

  /** A numeral holds no '#', no key and no marker, so numeric updates ask nothing of the new value. */
  lemma {:induction false} NumeralsAreClean(n: nat, layout: Layout, section: Section)
    requires LayoutSound(layout)
    ensures '#' !in Decimal(n) && Unmarked(Decimal(n), layout.markers)
    ensures var ups := layout.updates(section);
            forall a :: 0 <= a < |ups| ==> Absent(Decimal(n), ups[a].key)
  {
    var ups := layout.updates(section);
    forall m | 0 <= m < |layout.markers|
      ensures Absent(Decimal(n), layout.markers[m].text)
    {
      NumeralHoldsNoWord(n, layout.markers[m].text);
    }
    forall a | 0 <= a < |ups|
      ensures Absent(Decimal(n), ups[a].key)
    {
      NumeralHoldsNoWord(n, ups[a].key);
    }
  }

  lemma {:induction false} NumeralHoldsNoWord(n: nat, m: string)
    requires IsWord(m)
    ensures Absent(Decimal(n), m)
  {
    forall i | 0 <= i <= |Decimal(n)|
      ensures !At(Decimal(n), m, i)
    {
      assert i < |Decimal(n)| ==> Decimal(n)[i + 0] <= '9';
    }
  }
}
