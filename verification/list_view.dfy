/**
 * The list view of all hosts: the host-wide process search, the per-host
 * compact flag, the screen-session attach command and the online tag.
 */
module ListView {
  import opened Wrappers
  import opened Text
  import opened Seqs
  import opened Records
  import opened Formatters

  /** One entry of the search dropdown; `value` is what the widget selects by. */
  datatype ProcessOption = ProcessOption(
    value: string,
    pid: nat,
    name: string,
    cmdline: string,
    cpuPercent: real,
    memoryPercent: real,
    gpuUsage: Option<(Option<nat>, int)>)  // shown only for GPU processes: id and memory

  function ToOption(p: Process): (o: ProcessOption)
    ensures o.pid == p.info.pid && o.value == NatToDecimal(p.info.pid)
  {
    ProcessOption(
      NatToDecimal(p.info.pid), p.info.pid, p.info.name, p.info.cmdline,
      p.info.cpuPercent, p.info.memoryPercent,
      if p.isGpuProcess then Some((p.gpuId, p.gpuMemoryUsage)) else None)
  }

  function ToOptions(ps: seq<Process>): (r: seq<ProcessOption>)
    ensures |r| == |ps|
    ensures forall i :: 0 <= i < |ps| ==> r[i] == ToOption(ps[i])
  {
    if ps == [] then [] else [ToOption(ps[0])] + ToOptions(ps[1..])
  }

  /** The processes a search text selects: none for an empty text. */
  function SearchMatches(processes: seq<Process>, searchText: string): (r: seq<Process>)
    ensures searchText == "" ==> r == []
    ensures searchText != "" ==> forall i :: 0 <= i < |r| ==> MatchesQuery(r[i], Lower(searchText))
  {
    if searchText == "" then []
    else
      var searchLower := Lower(searchText);
      Filter(processes, p => MatchesQuery(p, searchLower))
  }

  /** The dropdown options for a search text. */
  function ProcessOptions(processes: seq<Process>, searchText: string): (r: seq<ProcessOption>)
    ensures searchText == "" ==> r == []
    ensures |r| <= |processes|
  {
    ToOptions(SearchMatches(processes, searchText))
  }

  /**
   * A non-empty search keeps exactly the matching processes, in input order,
   * each option carrying its process's pid in decimal.
   */
  lemma {:induction false} SearchExact(processes: seq<Process>, searchText: string, x: Process)
    requires searchText != ""
    ensures var m := SearchMatches(processes, searchText);
      && (x in m <==> x in processes && MatchesQuery(x, Lower(searchText)))
      && multiset(m)[x] == (if MatchesQuery(x, Lower(searchText)) then multiset(processes)[x] else 0)
      && IsSubsequence(m, processes)
      && ProcessOptions(processes, searchText) == ToOptions(m)
  {
    var keep := p => MatchesQuery(p, Lower(searchText));
    FilterMembership(processes, keep, x);
    FilterCount(processes, keep, x);
    FilterIsSubsequence(processes, keep);
  }

  /** The search does not depend on the letter case of the text. */
  lemma SearchIgnoresCase(processes: seq<Process>, a: string, b: string)
    requires Lower(a) == Lower(b)
    ensures ProcessOptions(processes, a) == ProcessOptions(processes, b)
  {
    assert |a| == |b|;
  }

  /** Selecting an option's value identifies its pid. */
  lemma OptionValueIdentifiesPid(o: ProcessOption, p: Process)
    requires o == ToOption(p)
    ensures IsDigits(o.value) && DecimalValue(o.value) == p.info.pid
  {
    DecimalRoundTrip(p.info.pid);
  }

  /** Options of processes with different pids have different values. */
  lemma OptionValuesDistinct(p: Process, q: Process)
    requires p.info.pid != q.info.pid
    ensures ToOption(p).value != ToOption(q).value
  {
    if ToOption(p).value == ToOption(q).value {
      DecimalInjective(p.info.pid, q.info.pid);
    }
  }

  /** The processes searched: the host's full list, or none without system info. */
  function HostProcesses(m: Machine): (ps: seq<Process>)
    ensures m.systemInfo.None? ==> ps == []
    ensures m.systemInfo.Some? ==> ps == m.systemInfo.value.processes
  {
    if m.systemInfo.Some? then m.systemInfo.value.processes else []
  }

  // ---------------------------------------------------------------- compact mode

  /** A host is compact unless its entry is explicitly `false`. */
  predicate IsCompact(compactModes: map<string, bool>, hostname: string)
    ensures hostname !in compactModes ==> IsCompact(compactModes, hostname)
    ensures hostname in compactModes ==> (IsCompact(compactModes, hostname) <==> compactModes[hostname])
  {
    !(hostname in compactModes && !compactModes[hostname])
  }

  /** `{...prev, [hostname]: value}`. */
  function SetCompactMode(compactModes: map<string, bool>, hostname: string, value: bool): (r: map<string, bool>)
    ensures r.Keys == compactModes.Keys + {hostname}
  {
    compactModes[hostname := value]
  }

  /** After setting, the host has the chosen mode and every other host keeps its own. */
  lemma SetCompactModeEffect(compactModes: map<string, bool>, hostname: string, value: bool, other: string)
    requires other != hostname
    ensures IsCompact(SetCompactMode(compactModes, hostname, value), hostname) == value
    ensures IsCompact(SetCompactMode(compactModes, hostname, value), other) == IsCompact(compactModes, other)
  {
  }

  /** Clicking a host's title flips its mode and no other host's. */
  lemma ToggleCompactFlips(compactModes: map<string, bool>, hostname: string, other: string)
    ensures IsCompact(SetCompactMode(compactModes, hostname, !IsCompact(compactModes, hostname)), hostname)
      == !IsCompact(compactModes, hostname)
    ensures other != hostname ==>
      IsCompact(SetCompactMode(compactModes, hostname, !IsCompact(compactModes, hostname)), other)
      == IsCompact(compactModes, other)
  {
  }

  /** A host never toggled is compact. */
  lemma CompactByDefault(hostname: string)
    ensures IsCompact(map[], hostname)
  {
  }

  // ---------------------------------------------------------------- screen sessions

  /**
   * The command copied for a session: an attached session needs the user's
   * confirmation and is shared with `-x`; any other session is resumed with `-R`.
   */
  function ScreenCopyCommand(session: ScreenSession, confirmed: bool): (cmd: Option<string>)
    ensures cmd == None <==> session.status == "Attached" && !confirmed
    ensures cmd.Some? ==> |cmd.value| == 10 + |session.name|
    ensures cmd.Some? ==> cmd.value[..10] == (if session.status == "Attached" then "screen -x " else "screen -R ")
    ensures cmd.Some? ==> cmd.value[10..] == session.name
  {
    if session.status == "Attached" then
      if confirmed then Some("screen -x " + session.name) else None
    else
      Some("screen -R " + session.name)
  }

  /** The colour of a session's status tag. */
  function ScreenStatusColor(status: string): (c: string)
    ensures c == "green" <==> status == "Attached"
    ensures c != "green" ==> c == "orange"
  {
    if status == "Attached" then "green" else "orange"
  }

  // ---------------------------------------------------------------- connection tag

  datatype StatusTag = StatusTag(color: string, text: string)

  /** The header tag of a host: red "离线" (offline) or green "在线" (online). */
  function ConnectionStatus(m: Machine): (t: StatusTag)
    ensures t.text == "离线" <==> !m.isOnline
    ensures t.color == (if m.isOnline then "green" else "red")
  {
    if !m.isOnline then StatusTag("red", "离线") else StatusTag("green", "在线")
  }

  // ---------------------------------------------------------------- host cards

  /** The background of a card's header: the host's pastel title shade, grey when offline. */
  function HeaderBackground(hostname: string, m: Machine): (bg: string)
    ensures m.isOnline ==> bg == PastelColors[ColorKey(hostname)].title
    ensures !m.isOnline ==> bg == "rgba(200, 200, 200, 0.7)"
  {
    if m.isOnline then PastelColors[ColorKey(hostname)].title else "rgba(200, 200, 200, 0.7)"
  }

  /** Hostnames made of the same characters get the same header colour. */
  lemma HeaderBackgroundIgnoresOrder(a: string, b: string, m: Machine)
    requires multiset(a) == multiset(b)
    ensures HeaderBackground(a, m) == HeaderBackground(b, m)
  {
    ColorIgnoresOrder(a, b);
  }

  /** What one host's card shows, apart from layout and styling. */
  datatype HostCard = HostCard(
    hostname: string,
    compact: bool,
    status: StatusTag,
    searchOptions: Option<seq<ProcessOption>>,   // the search box, on an expanded card
    screenSessions: Option<seq<ScreenSession>>,  // the screen table, when there are sessions
    containers: Option<seq<Container>>,          // the container table, when there are containers
    gpus: seq<GpuView>)

  function RenderHost(hostname: string, m: Machine, compactModes: map<string, bool>, searchText: string): (c: HostCard)
    ensures c.hostname == hostname && c.gpus == m.gpuData
    ensures c.compact == IsCompact(compactModes, hostname)
    ensures c.searchOptions.Some? <==> !c.compact
    ensures c.searchOptions.Some? ==> c.searchOptions.value == ProcessOptions(HostProcesses(m), searchText)
    ensures c.screenSessions.Some? <==>
      !c.compact && m.systemInfo.Some? && |m.systemInfo.value.screenSessions| > 0
    ensures c.containers.Some? <==>
      !c.compact && m.systemInfo.Some? && |m.systemInfo.value.dockerContainers| > 0
  {
    var compact := IsCompact(compactModes, hostname);
    var info := m.systemInfo;
    HostCard(
      hostname, compact, ConnectionStatus(m),
      if compact then None else Some(ProcessOptions(HostProcesses(m), searchText)),
      if !compact && info.Some? && |info.value.screenSessions| > 0 then Some(info.value.screenSessions) else None,
      if !compact && info.Some? && |info.value.dockerContainers| > 0 then Some(info.value.dockerContainers) else None,
      m.gpuData)
  }

  /** One card per host, in the order of the hosts. */
  function RenderList(entries: Entries, compactModes: map<string, bool>, searchText: string): (cards: seq<HostCard>)
    ensures |cards| == |entries|
    ensures forall i :: 0 <= i < |entries| ==>
      cards[i] == RenderHost(entries[i].0, entries[i].1, compactModes, searchText)
  {
    seq(|entries|, i requires 0 <= i < |entries| => RenderHost(entries[i].0, entries[i].1, compactModes, searchText))
  }

  /** A collapsed card shows only its header and GPU cards. */
  lemma CollapsedCardHidesDetails(hostname: string, m: Machine, compactModes: map<string, bool>, searchText: string)
    requires hostname !in compactModes
    ensures var c := RenderHost(hostname, m, compactModes, searchText);
      c.searchOptions == None && c.screenSessions == None && c.containers == None
  {
  }
}
