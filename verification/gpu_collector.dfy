/**
 * The per-host collector: it probes processes, the outward IP address,
 * screen sessions and docker containers, and joins the GPU query with the
 * process list so that a process running on a GPU is marked in place.
 *
 * Everything the collector asks the operating system is a parameter here:
 * `None` stands for a call that raised.
 */
module GpuCollector {
  import opened Wrappers
  import opened Text
  import opened Seqs
  import opened Records

  // ---------------------------------------------------------------- processes

  /** What the process library reports for one live pid. */
  datatype ProcessProbe = ProcessProbe(
    name: string,
    argv: seq<string>,
    cpuPercent: real,
    memoryPercent: real,
    createTime: real,
    status: string,
    username: string)

  /** `' '.join(argv)`. */
  function CommandLine(argv: seq<string>): (cmd: string)
    ensures argv == [] ==> cmd == ""
  {
    if argv == [] then "" else Join(argv, ' ')
  }

  /** A command line whose arguments hold no blank splits back into them. */
  lemma CommandLineRoundTrip(argv: seq<string>)
    requires argv != []
    requires forall k :: 0 <= k < |argv| ==> ' ' !in argv[k]
    ensures Split(CommandLine(argv), ' ') == argv
  {
    SplitJoin(argv, ' ');
  }

  /** The details of one pid, or `None` when the process vanished or is not accessible. */
  function GetProcessInfo(pid: nat, probe: Option<ProcessProbe>): (r: Option<ProcessInfo>)
    ensures r.Some? <==> probe.Some?
    ensures r.Some? ==>
      r.value.pid == pid && r.value.name == probe.value.name && r.value.cmdline == CommandLine(probe.value.argv)
    ensures r.Some? ==>
      r.value.cpuPercent == probe.value.cpuPercent && r.value.memoryPercent == probe.value.memoryPercent &&
      r.value.createTime == probe.value.createTime && r.value.status == probe.value.status &&
      r.value.username == probe.value.username
  {
    match probe
    case None => None
    case Some(p) =>
      Some(ProcessInfo(pid, p.name, CommandLine(p.argv), p.cpuPercent, p.memoryPercent,
        p.createTime, p.status, p.username))
  }

  /** The details of every pid that could be probed, in enumeration order. */
  function Probed(probes: seq<(nat, Option<ProcessProbe>)>): (infos: seq<ProcessInfo>)
    ensures |infos| <= |probes|
  {
    if probes == [] then []
    else
      var last := probes[|probes| - 1];
      var info := GetProcessInfo(last.0, last.1);
      Probed(probes[..|probes| - 1]) + (if info.Some? then [info.value] else [])
  }

  /** Probing is done pid by pid: the records of two blocks of pids are concatenated. */
  lemma {:induction false} ProbedConcat(a: seq<(nat, Option<ProcessProbe>)>, b: seq<(nat, Option<ProcessProbe>)>)
    ensures Probed(a + b) == Probed(a) + Probed(b)
  {
    if b != [] {
      var init, last := b[..|b| - 1], b[|b| - 1];
      var tail := if GetProcessInfo(last.0, last.1).Some? then [GetProcessInfo(last.0, last.1).value] else [];
      assert (a + b)[..|a + b| - 1] == a + init && (a + b)[|a + b| - 1] == last;
      assert Probed(a + b) == Probed(a + init) + tail;
      ProbedConcat(a, init);
      assert Probed(b) == Probed(init) + tail;
    } else {
      assert a + b == a;
    }
  }

  /** One pid gives its own record when its probe succeeded, and nothing otherwise. */
  lemma ProbedSingle(pid: nat, probe: Option<ProcessProbe>)
    ensures Probed([(pid, probe)]) == if probe.Some? then [GetProcessInfo(pid, probe).value] else []
  {
    assert [(pid, probe)][..0] == [];
  }

  /** A pid is listed exactly when its probe succeeded. */
  lemma {:induction false} ProbedExact(probes: seq<(nat, Option<ProcessProbe>)>, pid: nat)
    ensures (exists i :: 0 <= i < |Probed(probes)| && Probed(probes)[i].pid == pid) <==>
      (exists k :: 0 <= k < |probes| && probes[k].0 == pid && probes[k].1.Some?)
  {
    if probes != [] {
      var init := probes[..|probes| - 1];
      ProbedExact(init, pid);
      var last := probes[|probes| - 1];
      var rest := Probed(init);
      if exists k :: 0 <= k < |probes| && probes[k].0 == pid && probes[k].1.Some? {
        var k :| 0 <= k < |probes| && probes[k].0 == pid && probes[k].1.Some?;
        if k < |init| {
          assert init[k] == probes[k];
          var i :| 0 <= i < |rest| && rest[i].pid == pid;
          assert Probed(probes)[i] == rest[i];
        } else {
          assert Probed(probes)[|rest|].pid == pid;
        }
      }
      if exists i :: 0 <= i < |Probed(probes)| && Probed(probes)[i].pid == pid {
        var i :| 0 <= i < |Probed(probes)| && Probed(probes)[i].pid == pid;
        if i < |rest| {
          assert rest[i] == Probed(probes)[i];
          var k :| 0 <= k < |init| && init[k].0 == pid && init[k].1.Some?;
          assert probes[k] == init[k];
        } else {
          assert probes[|probes| - 1].0 == pid;
        }
      }
    }
  }

  /** A process record before the GPU query: not on any GPU. */
  function Fresh(info: ProcessInfo): (p: Process)
    ensures p.info == info && !p.isGpuProcess && p.gpuMemoryUsage == 0 && p.gpuId == None
  {
    Process(info, false, 0, None)
  }

  /** The process list before the GPU query. */
  function Initial(probes: seq<(nat, Option<ProcessProbe>)>): (ps: seq<Process>)
    ensures |ps| == |Probed(probes)|
    ensures forall i :: 0 <= i < |ps| ==> ps[i] == Fresh(Probed(probes)[i])
  {
    seq(|Probed(probes)|, i requires 0 <= i < |Probed(probes)| => Fresh(Probed(probes)[i]))
  }

  /** `get_all_processes`: one fresh record per pid that could be probed. */
  method GetAllProcesses(probes: seq<(nat, Option<ProcessProbe>)>) returns (processes: seq<Process>)
    ensures |processes| == |Probed(probes)|
    ensures forall i :: 0 <= i < |processes| ==> processes[i] == Fresh(Probed(probes)[i])
  {
    processes := [];
    for k := 0 to |probes|
      invariant |processes| == |Probed(probes[..k])|
      invariant forall i :: 0 <= i < |processes| ==> processes[i] == Fresh(Probed(probes[..k])[i])
    {
      assert probes[..k + 1][..k] == probes[..k];
      var detailed := GetProcessInfo(probes[k].0, probes[k].1);
      if detailed.Some? {
        processes := processes + [Fresh(detailed.value)];
      }
    }
    assert probes[..|probes|] == probes;
  }

  // ---------------------------------------------------------------- IP address

  datatype Family = Inet | Inet6 | Link

  datatype Addr = Addr(family: Family, address: string)

  /** An IPv4 address outside the loopback range. */
  predicate Usable(a: Addr) {
    a.family == Inet && !StartsWith(a.address, "127.")
  }

  /** Position `m` holds the first usable address of `addrs`. */
  predicate FirstUsableAt(addrs: seq<Addr>, m: int) {
    0 <= m < |addrs| && Usable(addrs[m]) && forall m' :: 0 <= m' < m ==> !Usable(addrs[m'])
  }

  /** The first IPv4 address of one interface that is not a loopback address. */
  function FirstInet(addrs: seq<Addr>): (r: Option<string>)
    ensures r.Some? ==> exists m :: FirstUsableAt(addrs, m) && addrs[m].address == r.value
    ensures r.None? <==> forall m :: 0 <= m < |addrs| ==> !Usable(addrs[m])
  {
    if addrs == [] then None
    else if Usable(addrs[0]) then
      assert FirstUsableAt(addrs, 0);
      Some(addrs[0].address)
    else
      var r := FirstInet(addrs[1..]);
      assert forall m :: 1 <= m < |addrs| ==> addrs[1..][m - 1] == addrs[m];
      if r.Some? then
        var m :| FirstUsableAt(addrs[1..], m) && addrs[1..][m].address == r.value;
        assert FirstUsableAt(addrs, m + 1);
        r
      else r
  }

  /** An interface the fallback may take its address from: not loopback, with a usable address. */
  predicate Candidate(interface: (string, seq<Addr>)) {
    !StartsWith(interface.0, "lo") && FirstInet(interface.1).Some?
  }

  /** Position `k` holds the first candidate interface. */
  predicate FirstCandidateAt(interfaces: seq<(string, seq<Addr>)>, k: int) {
    0 <= k < |interfaces| && Candidate(interfaces[k]) && forall k' :: 0 <= k' < k ==> !Candidate(interfaces[k'])
  }

  /** The fallback: the first usable address of the first non-loopback interface that has one. */
  function FallbackAddress(interfaces: seq<(string, seq<Addr>)>): (r: Option<string>)
    ensures r.Some? ==> exists k :: FirstCandidateAt(interfaces, k) && FirstInet(interfaces[k].1) == r
    ensures r.None? <==> forall k :: 0 <= k < |interfaces| ==> !Candidate(interfaces[k])
  {
    if interfaces == [] then None
    else if Candidate(interfaces[0]) then
      assert FirstCandidateAt(interfaces, 0);
      FirstInet(interfaces[0].1)
    else
      var r := FallbackAddress(interfaces[1..]);
      assert forall k :: 1 <= k < |interfaces| ==> interfaces[1..][k - 1] == interfaces[k];
      if r.Some? then
        var k :| FirstCandidateAt(interfaces[1..], k) && FirstInet(interfaces[1..][k].1) == r;
        assert FirstCandidateAt(interfaces, k + 1);
        r
      else r
  }

  /** The address reported when both ways fail. */
  const UnknownAddress: string := "未知"

  /**
   * `get_ip_address`: the local address of a socket routed outward, else the
   * fallback scan over the interfaces, else "未知".
   */
  method GetIpAddress(routed: Option<string>, interfaces: Option<seq<(string, seq<Addr>)>>) returns (ip: string)
    ensures routed.Some? ==> ip == routed.value
    ensures routed.None? && interfaces.Some? && FallbackAddress(interfaces.value).Some? ==>
      ip == FallbackAddress(interfaces.value).value
    ensures routed.None? && (interfaces.None? || FallbackAddress(interfaces.value).None?) ==>
      ip == UnknownAddress
  {
    if routed.Some? {
      return routed.value;
    }
    if interfaces.Some? {
      var ifs := interfaces.value;
      for k := 0 to |ifs|
        invariant FallbackAddress(ifs) == FallbackAddress(ifs[k..])
      {
        assert ifs[k..][1..] == ifs[k + 1..];
        var name: string, addrs: seq<Addr> := ifs[k].0, ifs[k].1;
        if StartsWith(name, "lo") {
          continue;
        }
        for m := 0 to |addrs|
          invariant FirstInet(addrs) == FirstInet(addrs[m..])
        {
          assert addrs[m..][1..] == addrs[m + 1..];
          if Usable(addrs[m]) {
            return addrs[m].address;
          }
        }
      }
    }
    return UnknownAddress;
  }

  // ---------------------------------------------------------------- screen sessions

  /** One line of `screen -ls`, when it describes a session. */
  function ParseScreenLine(line: string): (r: Option<ScreenSession>)
    ensures r.Some? <==>
      && '.' in line && (Contains(line, "Detached") || Contains(line, "Attached"))
      && '.' in Split(Strip(line), '\t')[0]
    ensures r.Some? ==> r.value.status == (if Contains(line, "Attached") then "Attached" else "Detached")
    ensures r.Some? ==>
      var parts := Split(Split(Strip(line), '\t')[0], '.');
      r.value.pid == Strip(parts[0]) && r.value.name == Strip(parts[1])
  {
    if '.' in line && (Contains(line, "Detached") || Contains(line, "Attached")) then
      var parts := Split(Split(Strip(line), '\t')[0], '.');
      if |parts| >= 2 then
        Some(ScreenSession(Strip(parts[0]), Strip(parts[1]), if Contains(line, "Attached") then "Attached" else "Detached"))
      else None
    else None
  }

  /**
   * The pid and the name of a parsed session are the first two dot-separated
   * fields of the line's first tab-separated field, so neither contains a dot.
   */
  lemma ScreenFieldsDotFree(line: string)
    requires ParseScreenLine(line).Some?
    ensures '.' !in ParseScreenLine(line).value.pid && '.' !in ParseScreenLine(line).value.name
  {
    var parts := Split(Split(Strip(line), '\t')[0], '.');
    SplitPartsFree(Split(Strip(line), '\t')[0], '.');
    StripKeepsOut(parts[0], '.');
    StripKeepsOut(parts[1], '.');
  }

  /**
   * The line format is a tab, `pid.name`, a tab and the status in brackets: a
   * detached session prints and parses back.
   */
  lemma ScreenLineRoundTrip(pid: string, name: string)
    requires '.' !in pid && '.' !in name && '\t' !in pid && '\t' !in name
    requires !Contains(pid, "Attached") && !Contains(name, "Attached")
    requires Strip(pid) == pid && Strip(name) == name
    ensures ParseScreenLine("\t" + pid + "." + name + "\t(Detached)") == Some(ScreenSession(pid, name, "Detached"))
  {
    var field := pid + "." + name;
    var body := field + "\t(Detached)";
    var line := "\t" + pid + "." + name + "\t(Detached)";
    DetachedLineShape(pid, name, field, body, line);
    SplitAfterField(field, '\t', "(Detached)");
    SplitAfterField(pid, '.', name);
    DetachedLineNotAttached(pid, name, line);
  }

  /** Stripping a detached line removes its leading tab, and the line says "Detached". */
  lemma DetachedLineShape(pid: string, name: string, field: string, body: string, line: string)
    requires Strip(pid) == pid
    requires field == pid + "." + name && body == field + "\t(Detached)" && line == "\t" + pid + "." + name + "\t(Detached)"
    ensures Strip(line) == body && body == field + ['\t'] + "(Detached)"
    ensures '.' in line && Contains(line, "Detached")
  {
    var rest := "." + name + "\t(Detached)";
    DetachedLineLayout(pid, name, field, body, line, rest);
    StripAfterTab(pid, rest, body, line);
    EndsWithDetached("\t" + field + "\t(", line);
  }

  /** Where the parts of a detached line lie. */
  lemma DetachedLineLayout(pid: string, name: string, field: string, body: string, line: string, rest: string)
    requires field == pid + "." + name && body == field + "\t(Detached)" && line == "\t" + pid + "." + name + "\t(Detached)"
    requires rest == "." + name + "\t(Detached)"
    ensures body == pid + rest && line == ['\t'] + body && body == field + ['\t'] + "(Detached)"
    ensures line == ("\t" + field + "\t(") + "Detached)"
    ensures rest != [] && rest[0] == '.' && rest[|rest| - 1] == ')'
    ensures line[1 + |pid|] == '.'
  {
  }

  /** A tab in front of a field without surrounding whitespace is all that stripping removes. */
  lemma StripAfterTab(pid: string, rest: string, body: string, line: string)
    requires Strip(pid) == pid && rest != [] && rest[0] == '.' && rest[|rest| - 1] == ')'
    requires body == pid + rest && line == ['\t'] + body
    ensures Strip(line) == body
  {
    StripShape(pid);
    assert body[0] == if pid == [] then '.' else pid[0];
    assert body[|body| - 1] == ')';
    StripNoop(body);
    assert line[1..] == body;
  }

  lemma EndsWithDetached(p: string, line: string)
    requires line == p + "Detached)"
    ensures Contains(line, "Detached")
  {
    ContainsAt(line, "Detached");
    assert line[|p|..|p| + 8] == "Detached";
    assert OccursAt(line, "Detached", |p|);
  }

  /** The status words of a detached line cannot spell "Attached" across its separators. */
  lemma DetachedLineNotAttached(pid: string, name: string, line: string)
    requires !Contains(pid, "Attached") && !Contains(name, "Attached")
    requires line == "\t" + pid + "." + name + "\t(Detached)"
    ensures !Contains(line, "Attached")
  {
    var a := [] + ['\t'] + pid;
    ContainsAcross([], '\t', pid, "Attached");
    var b := a + ['.'] + name;
    ContainsAcross(a, '.', name, "Attached");
    assert line == b + ['\t'] + "(Detached)";
    DetachedNotAttached();
    ContainsAcross(b, '\t', "(Detached)", "Attached");
  }

  lemma DetachedNotAttached()
    ensures !Contains("(Detached)", "Attached")
  {
    // Only the first three offsets leave room for eight characters, and none starts with 'A'.
    var d := "(Detached)";
    assert !Contains(d[3..], "Attached");
    assert d[2..][..8][0] == 'e' && d[2..][1..] == d[3..];
    assert !Contains(d[2..], "Attached");
    assert d[1..][..8][0] == 'D' && d[1..][1..] == d[2..];
    assert !Contains(d[1..], "Attached");
    assert d[..8][0] == '(';
  }

  /** The sessions of a list of lines, in line order. */
  function ScreenSessionsOf(lines: seq<string>): (sessions: seq<ScreenSession>)
    ensures |sessions| <= |lines|
  {
    if lines == [] then []
    else
      var parsed := ParseScreenLine(lines[|lines| - 1]);
      ScreenSessionsOf(lines[..|lines| - 1]) + (if parsed.Some? then [parsed.value] else [])
  }

  /** Lines are parsed independently: the sessions of two blocks are concatenated. */
  lemma {:induction false} ScreenSessionsConcat(a: seq<string>, b: seq<string>)
    ensures ScreenSessionsOf(a + b) == ScreenSessionsOf(a) + ScreenSessionsOf(b)
  {
    if b != [] {
      assert (a + b)[..|a + b| - 1] == a + b[..|b| - 1];
      ScreenSessionsConcat(a, b[..|b| - 1]);
    } else {
      assert a + b == a;
    }
  }

  /** A single line gives its own session when it parses, and nothing otherwise. */
  lemma ScreenSessionsSingle(line: string)
    ensures ScreenSessionsOf([line]) == if ParseScreenLine(line).Some? then [ParseScreenLine(line).value] else []
  {
    assert [line][..0] == [];
  }

  /** A line that parses puts its session into the list, wherever it stands among the lines. */
  lemma ScreenSessionsIncludeParsed(before: seq<string>, line: string, after: seq<string>)
    requires ParseScreenLine(line).Some?
    ensures ParseScreenLine(line).value in ScreenSessionsOf(before + [line] + after)
  {
    ScreenSessionsConcat(before + [line], after);
    ScreenSessionsConcat(before, [line]);
    ScreenSessionsSingle(line);
  }

  /** `screen -ls` printing one detached session gives exactly that session. */
  lemma DetachedSessionListed(pid: string, name: string, stdout: string)
    requires '.' !in pid && '.' !in name && '\t' !in pid && '\t' !in name
    requires '\n' !in pid && '\n' !in name
    requires !Contains(pid, "Attached") && !Contains(name, "Attached")
    requires Strip(pid) == pid && Strip(name) == name
    requires stdout == "\t" + pid + "." + name + "\t(Detached)"
    ensures ScreenSessionsOf(Split(stdout, '\n')) == [ScreenSession(pid, name, "Detached")]
  {
    NoNewlineInLine(pid, name, stdout);
    assert Split(stdout, '\n') == [stdout];
    ScreenLineRoundTrip(pid, name);
    ScreenSessionsSingle(stdout);
  }

  /** A detached line built from newline-free parts is one line. */
  lemma NoNewlineInLine(pid: string, name: string, line: string)
    requires '\n' !in pid && '\n' !in name
    requires line == "\t" + pid + "." + name + "\t(Detached)"
    ensures '\n' !in line
  {
  }

  /** Every listed session comes from one line and has one of the two statuses. */
  lemma {:induction false} ScreenSessionsFromLines(lines: seq<string>, s: ScreenSession)
    requires s in ScreenSessionsOf(lines)
    ensures exists k :: 0 <= k < |lines| && ParseScreenLine(lines[k]) == Some(s)
    ensures s.status == "Attached" || s.status == "Detached"
  {
    var init := lines[..|lines| - 1];
    var parsed := ParseScreenLine(lines[|lines| - 1]);
    if s in ScreenSessionsOf(init) {
      ScreenSessionsFromLines(init, s);
      var k :| 0 <= k < |init| && ParseScreenLine(init[k]) == Some(s);
      assert lines[k] == init[k];
    } else {
      assert parsed == Some(s);
    }
  }

  /** `get_screen_sessions`: `None` is a `screen` that could not be run. */
  method GetScreenSessions(stdout: Option<string>) returns (sessions: seq<ScreenSession>)
    ensures stdout.None? ==> sessions == []
    ensures stdout.Some? ==> sessions == ScreenSessionsOf(Split(stdout.value, '\n'))
  {
    if stdout.None? {
      return [];
    }
    var lines := Split(stdout.value, '\n');
    sessions := [];
    for i := 0 to |lines|
      invariant sessions == ScreenSessionsOf(lines[..i])
    {
      assert lines[..i + 1][..i] == lines[..i];
      var parsed := ParseScreenLine(lines[i]);
      if parsed.Some? {
        sessions := sessions + [parsed.value];
      }
    }
    assert lines[..|lines|] == lines;
  }

  // ---------------------------------------------------------------- docker containers

  /** A line that `strip()` empties is skipped. */
  predicate Blank(line: string) {
    Strip(line) == ""
  }

  /** The four `|`-separated fields of a line, or `None` when there are not exactly four. */
  function ParseContainerLine(line: string): (r: Option<Container>)
    ensures r.Some? <==> |Split(Strip(line), '|')| == 4
    ensures r.Some? ==> Join([r.value.id, r.value.name, r.value.status, r.value.image], '|') == Strip(line)
  {
    var fields := Split(Strip(line), '|');
    JoinSplit(Strip(line), '|');
    if |fields| == 4 then
      assert fields == [fields[0], fields[1], fields[2], fields[3]];
      Some(Container(fields[0], fields[1], fields[2], fields[3]))
    else None
  }

  /** The line format is `ID|Names|Status|Image`: a container prints and parses back. */
  lemma ContainerLineRoundTrip(c: Container)
    requires '|' !in c.id && '|' !in c.name && '|' !in c.status && '|' !in c.image
    requires Strip(Join([c.id, c.name, c.status, c.image], '|')) == Join([c.id, c.name, c.status, c.image], '|')
    ensures ParseContainerLine(Join([c.id, c.name, c.status, c.image], '|')) == Some(c)
  {
    SplitJoin([c.id, c.name, c.status, c.image], '|');
  }

  /**
   * The containers of a list of lines, or `None` when a non-blank line does
   * not have four fields (the unpacking raises and the whole list is lost).
   */
  function ContainersOf(lines: seq<string>): (r: Option<seq<Container>>)
    ensures r.Some? ==> |r.value| <= |lines|
  {
    if lines == [] then Some([])
    else
      var line := lines[|lines| - 1];
      match ContainersOf(lines[..|lines| - 1])
      case None => None
      case Some(cs) =>
        if Blank(line) then Some(cs)
        else
          match ParseContainerLine(line)
          case None => None
          case Some(c) => Some(cs + [c])
  }

  /** A line the unpacking rejects: not blank, and not four fields. */
  predicate Malformed(line: string) {
    !Blank(line) && ParseContainerLine(line).None?
  }

  lemma ContainersStep(lines: seq<string>)
    requires lines != []
    ensures ContainersOf(lines).None? <==> ContainersOf(lines[..|lines| - 1]).None? || Malformed(lines[|lines| - 1])
  {
  }

  /** Reading line `i` after the ones before it. */
  lemma ContainersNext(lines: seq<string>, i: nat)
    requires i < |lines|
    ensures ContainersOf(lines[..i + 1]) ==
      if ContainersOf(lines[..i]).None? then None
      else if Blank(lines[i]) then ContainersOf(lines[..i])
      else if ParseContainerLine(lines[i]).None? then None
      else Some(ContainersOf(lines[..i]).value + [ParseContainerLine(lines[i]).value])
  {
    assert lines[..i + 1][..i] == lines[..i];
  }

  /** A malformed line loses the whole list, whatever follows it. */
  lemma MalformedLoses(lines: seq<string>, i: nat)
    requires i < |lines| && Malformed(lines[i])
    ensures ContainersOf(lines).None?
  {
    var upTo, after := lines[..i + 1], lines[i + 1..];
    assert upTo[|upTo| - 1] == lines[i];
    ContainersStep(upTo);
    ContainersNonePropagates(upTo, after);
    PrefixThenRest(lines, i + 1);
  }

  /** One malformed line loses every container. */
  lemma ContainersAllOrNothing(lines: seq<string>)
    ensures ContainersOf(lines).None? <==> exists k :: 0 <= k < |lines| && Malformed(lines[k])
  {
    if ContainersOf(lines).None? {
      NoneHasMalformed(lines);
    }
    if exists k :: 0 <= k < |lines| && Malformed(lines[k]) {
      var k :| 0 <= k < |lines| && Malformed(lines[k]);
      MalformedLoses(lines, k);
    }
  }

  /** A lost list has a malformed line to blame. */
  lemma {:induction false} NoneHasMalformed(lines: seq<string>)
    requires ContainersOf(lines).None?
    ensures exists k :: 0 <= k < |lines| && Malformed(lines[k])
  {
    var init := lines[..|lines| - 1];
    ContainersStep(lines);
    if ContainersOf(init).None? {
      NoneHasMalformed(init);
      var k :| 0 <= k < |init| && Malformed(init[k]);
      assert lines[k] == init[k];
    } else {
      assert Malformed(lines[|lines| - 1]);
    }
  }

  /** When nothing is malformed, every non-blank line gives exactly one container, in order. */
  lemma {:induction false} ContainersCount(lines: seq<string>)
    requires ContainersOf(lines).Some?
    ensures |ContainersOf(lines).value| == |NonBlank(lines)|
    ensures forall i :: 0 <= i < |NonBlank(lines)| ==>
      ParseContainerLine(NonBlank(lines)[i]) == Some(ContainersOf(lines).value[i])
  {
    if lines != [] {
      ContainersCount(lines[..|lines| - 1]);
    }
  }

  /** The non-blank lines, in order. */
  function NonBlank(lines: seq<string>): (r: seq<string>)
    ensures |r| <= |lines|
  {
    if lines == [] then []
    else NonBlank(lines[..|lines| - 1]) + (if Blank(lines[|lines| - 1]) then [] else [lines[|lines| - 1]])
  }

  /** `get_docker_containers`: `None` is a `docker` that could not be run. */
  method GetDockerContainers(stdout: Option<string>) returns (containers: seq<Container>)
    ensures stdout.None? ==> containers == []
    ensures stdout.Some? ==> containers == ContainersOf(Split(stdout.value, '\n')).GetOr([])
  {
    if stdout.None? {
      return [];
    }
    var lines := Split(stdout.value, '\n');
    containers := [];
    for i := 0 to |lines|
      invariant ContainersOf(lines[..i]) == Some(containers)
    {
      ContainersNext(lines, i);
      if Strip(lines[i]) == "" {
        continue;
      }
      var parsed := ParseContainerLine(lines[i]);
      if parsed.None? {
        MalformedLoses(lines, i);
        return [];
      }
      containers := containers + [parsed.value];
    }
    assert lines[..|lines|] == lines;
  }

  /** Once a malformed line has been read, no later line brings the list back. */
  lemma {:induction false} ContainersNonePropagates(a: seq<string>, b: seq<string>)
    requires ContainersOf(a).None?
    ensures ContainersOf(a + b).None?
  {
    if b != [] {
      assert (a + b)[..|a + b| - 1] == a + b[..|b| - 1];
      ContainersNonePropagates(a, b[..|b| - 1]);
    } else {
      assert a + b == a;
    }
  }

  // ---------------------------------------------------------------- GPU join

  /** One process as the GPU query lists it. */
  datatype GpuProcessStat = GpuProcessStat(pid: nat, gpuMemoryUsage: int)

  /** One GPU as the GPU query reports it. */
  datatype GpuStat = GpuStat(
    index: nat,
    name: string,
    temperature: int,
    utilization: int,
    memoryUsed: int,
    memoryTotal: int,
    processes: seq<GpuProcessStat>)

  /**
   * `{proc['pid']: proc for proc in all_processes}` as positions: every pid
   * maps to the position of its last record.
   */
  function ProcessMap(ps: seq<Process>): (pm: map<nat, nat>)
    ensures forall pid :: pid in pm <==> exists i :: 0 <= i < |ps| && ps[i].info.pid == pid
    ensures forall pid :: pid in pm ==> pm[pid] < |ps| && ps[pm[pid]].info.pid == pid
    ensures forall pid, j :: pid in pm && pm[pid] < j < |ps| ==> ps[j].info.pid != pid
  {
    if ps == [] then map[]
    else
      var init := ps[..|ps| - 1];
      var pm := ProcessMap(init);
      ProcessMapStep(ps, pm);
      pm[ps[|ps| - 1].info.pid := |ps| - 1]
  }

  /** The step of `ProcessMap`: the last record overrides the map of the others. */
  lemma ProcessMapStep(ps: seq<Process>, pm: map<nat, nat>)
    requires ps != []
    requires forall pid :: pid in pm <==> exists i :: 0 <= i < |ps| - 1 && ps[i].info.pid == pid
    requires forall pid :: pid in pm ==> pm[pid] < |ps| - 1 && ps[pm[pid]].info.pid == pid
    requires forall pid, j :: pid in pm && pm[pid] < j < |ps| - 1 ==> ps[j].info.pid != pid
    ensures var r := pm[ps[|ps| - 1].info.pid := |ps| - 1];
      && (forall pid :: pid in r <==> exists i :: 0 <= i < |ps| && ps[i].info.pid == pid)
      && (forall pid :: pid in r ==> r[pid] < |ps| && ps[r[pid]].info.pid == pid)
      && (forall pid, j :: pid in r && r[pid] < j < |ps| ==> ps[j].info.pid != pid)
  {
    var n := |ps| - 1;
    var r := pm[ps[n].info.pid := n];
    forall pid ensures pid in r <==> exists i :: 0 <= i < |ps| && ps[i].info.pid == pid {
      if exists i :: 0 <= i < |ps| && ps[i].info.pid == pid {
        var i :| 0 <= i < |ps| && ps[i].info.pid == pid;
        assert i < n ==> pid in pm;
      }
    }
  }

  /** Every position the map holds is a position of the list. */
  predicate ValidMap(pm: map<nat, nat>, n: nat) {
    forall pid :: pid in pm ==> pm[pid] < n
  }

  /** The three assignments that mark a record as running on a GPU. */
  function Mark(p: Process, gpuIndex: nat, memory: int): (q: Process)
    ensures q.info == p.info && q.isGpuProcess && q.gpuMemoryUsage == memory && q.gpuId == Some(gpuIndex)
  {
    Process(p.info, true, memory, Some(gpuIndex))
  }

  /** A listed process seen on the GPU with the given index. */
  type Hit = (nat, GpuProcessStat)

  function Tagged(index: nat, stats: seq<GpuProcessStat>): (r: seq<Hit>)
    ensures |r| == |stats|
    ensures forall j :: 0 <= j < |stats| ==> r[j] == (index, stats[j])
  {
    seq(|stats|, j requires 0 <= j < |stats| => (index, stats[j]))
  }

  /** The listed processes of all GPUs, in the order the join visits them. */
  function Hits(gpus: seq<GpuStat>): (hits: seq<Hit>)
    ensures gpus == [] ==> hits == []
    ensures |gpus| == 1 ==> hits == Tagged(gpus[0].index, gpus[0].processes)
  {
    if gpus == [] then []
    else Hits(gpus[..|gpus| - 1]) + Tagged(gpus[|gpus| - 1].index, gpus[|gpus| - 1].processes)
  }

  lemma {:induction false} HitsAppend(a: seq<GpuStat>, b: seq<GpuStat>)
    ensures Hits(a + b) == Hits(a) + Hits(b)
  {
    if b != [] {
      var init, last := b[..|b| - 1], b[|b| - 1];
      var t := Tagged(last.index, last.processes);
      assert (a + b)[..|a + b| - 1] == a + init && (a + b)[|a + b| - 1] == last;
      assert Hits(a + b) == Hits(a + init) + t;
      HitsAppend(a, init);
      assert Hits(b) == Hits(init) + t;
    } else {
      assert a + b == a;
    }
  }

  /** The hit lands on record `i`: its pid is known and maps to `i`. */
  predicate Lands(pm: map<nat, nat>, hit: Hit, i: nat) {
    hit.1.pid in pm && pm[hit.1.pid] == i
  }

  /** The records after the hits have been applied one after another. */
  function Merged(ps: seq<Process>, pm: map<nat, nat>, hits: seq<Hit>): (r: seq<Process>)
    requires ValidMap(pm, |ps|)
    ensures |r| == |ps|
  {
    if hits == [] then ps
    else
      var prev := Merged(ps, pm, hits[..|hits| - 1]);
      var hit := hits[|hits| - 1];
      if hit.1.pid in pm then
        var i := pm[hit.1.pid];
        prev[i := Mark(prev[i], hit.0, hit.1.gpuMemoryUsage)]
      else prev
  }

  /** Applying one more hit. */
  lemma MergedStep(ps: seq<Process>, pm: map<nat, nat>, hits: seq<Hit>, hit: Hit)
    requires ValidMap(pm, |ps|)
    ensures Merged(ps, pm, hits + [hit]) ==
      var prev := Merged(ps, pm, hits);
      if hit.1.pid in pm then prev[pm[hit.1.pid] := Mark(prev[pm[hit.1.pid]], hit.0, hit.1.gpuMemoryUsage)] else prev
  {
    assert (hits + [hit])[..|hits|] == hits;
  }

  /** The GPU index and memory of the last hit that lands on record `i`. */
  function LastHit(pm: map<nat, nat>, hits: seq<Hit>, i: nat): (r: Option<(nat, int)>)
    ensures r.None? <==> forall h :: 0 <= h < |hits| ==> !Lands(pm, hits[h], i)
    ensures r.Some? ==> exists h ::
      && 0 <= h < |hits| && Lands(pm, hits[h], i)
      && r.value == (hits[h].0, hits[h].1.gpuMemoryUsage)
      && (forall h' :: h < h' < |hits| ==> !Lands(pm, hits[h'], i))
  {
    if hits == [] then None
    else
      var hit := hits[|hits| - 1];
      var init := hits[..|hits| - 1];
      if Lands(pm, hit, i) then
        assert Lands(pm, hits[|hits| - 1], i);
        Some((hit.0, hit.1.gpuMemoryUsage))
      else
        var r := LastHit(pm, init, i);
        LastHitStep(pm, hits, i, r);
        r
  }

  /** The step of `LastHit` when the newest hit does not land. */
  lemma LastHitStep(pm: map<nat, nat>, hits: seq<Hit>, i: nat, r: Option<(nat, int)>)
    requires hits != [] && !Lands(pm, hits[|hits| - 1], i)
    requires r.None? <==> forall h :: 0 <= h < |hits| - 1 ==> !Lands(pm, hits[h], i)
    requires r.Some? ==> exists h ::
      && 0 <= h < |hits| - 1 && Lands(pm, hits[h], i)
      && r.value == (hits[h].0, hits[h].1.gpuMemoryUsage)
      && (forall h' :: h < h' < |hits| - 1 ==> !Lands(pm, hits[h'], i))
    ensures r.None? <==> forall h :: 0 <= h < |hits| ==> !Lands(pm, hits[h], i)
    ensures r.Some? ==> exists h ::
      && 0 <= h < |hits| && Lands(pm, hits[h], i)
      && r.value == (hits[h].0, hits[h].1.gpuMemoryUsage)
      && (forall h' :: h < h' < |hits| ==> !Lands(pm, hits[h'], i))
  {
    if r.Some? {
      var h :| && 0 <= h < |hits| - 1 && Lands(pm, hits[h], i)
        && r.value == (hits[h].0, hits[h].1.gpuMemoryUsage)
        && (forall h' :: h < h' < |hits| - 1 ==> !Lands(pm, hits[h'], i));
      assert forall h' :: h < h' < |hits| ==> !Lands(pm, hits[h'], i);
    }
  }

  /**
   * Each record ends up as its last landing hit left it: unchanged when no
   * listed process maps to it, otherwise marked with that hit's GPU and memory.
   */
  lemma {:induction false} MergedAt(ps: seq<Process>, pm: map<nat, nat>, hits: seq<Hit>, i: nat)
    requires ValidMap(pm, |ps|) && i < |ps|
    ensures Merged(ps, pm, hits)[i] ==
      match LastHit(pm, hits, i)
      case None => ps[i]
      case Some(last) => Mark(ps[i], last.0, last.1)
  {
    if hits != [] {
      MergedAt(ps, pm, hits[..|hits| - 1], i);
    }
  }

  lemma {:induction false} LastHitAppend(pm: map<nat, nat>, a: seq<Hit>, b: seq<Hit>, i: nat)
    ensures LastHit(pm, a + b, i) == if LastHit(pm, b, i).Some? then LastHit(pm, b, i) else LastHit(pm, a, i)
  {
    if b != [] {
      assert (a + b)[..|a + b| - 1] == a + b[..|b| - 1];
      LastHitAppend(pm, a, b[..|b| - 1], i);
    } else {
      assert a + b == a;
    }
  }

  /** The positions of a GPU's listed processes that are known, in listing order. */
  function Members(pm: map<nat, nat>, stats: seq<GpuProcessStat>): (r: seq<nat>)
    ensures |r| <= |stats|
    ensures forall j :: 0 <= j < |stats| && stats[j].pid in pm ==> pm[stats[j].pid] in r
    ensures forall x :: x in r ==> exists j :: 0 <= j < |stats| && stats[j].pid in pm && pm[stats[j].pid] == x
  {
    if stats == [] then []
    else
      var init := stats[..|stats| - 1];
      var last := stats[|stats| - 1];
      var r := Members(pm, init);
      assert forall j :: 0 <= j < |init| ==> init[j] == stats[j];
      r + (if last.pid in pm then [pm[last.pid]] else [])
  }

  /**
   * The positions follow the GPU's listing order, one per listing whose pid
   * has a record, duplicates kept: a listing contributes its record's position
   * or nothing, and the contributions are concatenated.
   */
  lemma {:induction false} MembersConcat(pm: map<nat, nat>, a: seq<GpuProcessStat>, b: seq<GpuProcessStat>)
    ensures Members(pm, a + b) == Members(pm, a) + Members(pm, b)
  {
    if b != [] {
      var init := b[..|b| - 1];
      assert (a + b)[..|a + b| - 1] == a + init;
      MembersConcat(pm, a, init);
    } else {
      assert a + b == a;
    }
  }

  /** A single listing contributes its record's position, or nothing without a record. */
  lemma MembersSingle(pm: map<nat, nat>, stat: GpuProcessStat)
    ensures Members(pm, [stat]) == if stat.pid in pm then [pm[stat.pid]] else []
  {
    assert [stat][..0] == [];
  }

  /** One GPU of the report, its processes given as positions in the process list. */
  datatype GpuEntry = GpuEntry(
    id: nat,
    name: string,
    temperature: int,
    utilization: int,
    memoryUsed: int,
    memoryTotal: int,
    members: seq<nat>)

  function EntryOf(gpu: GpuStat, pm: map<nat, nat>): (e: GpuEntry)
    ensures e.id == gpu.index && e.members == Members(pm, gpu.processes)
  {
    GpuEntry(gpu.index, gpu.name, gpu.temperature, gpu.utilization, gpu.memoryUsed, gpu.memoryTotal,
      Members(pm, gpu.processes))
  }

  lemma MembersStep(pm: map<nat, nat>, stats: seq<GpuProcessStat>, stat: GpuProcessStat)
    ensures Members(pm, stats + [stat]) == Members(pm, stats) + (if stat.pid in pm then [pm[stat.pid]] else [])
  {
    assert (stats + [stat])[..|stats|] == stats;
  }

  /**
   * The join of `collect_gpu_info`: every listed process whose pid has a
   * record marks that record in place, and each GPU's list refers to the
   * very records of the process list.
   */
  method CollectGpuProcesses(procs: array<Process>, gpus: seq<GpuStat>) returns (entries: seq<GpuEntry>)
    modifies procs
    ensures procs[..] == Merged(old(procs[..]), ProcessMap(old(procs[..])), Hits(gpus))
    ensures |entries| == |gpus|
    ensures forall k :: 0 <= k < |gpus| ==> entries[k] == EntryOf(gpus[k], ProcessMap(old(procs[..])))
  {
    ghost var ps := procs[..];
    var pm := ProcessMap(procs[..]);
    entries := [];
    for g := 0 to |gpus|
      invariant procs[..] == Merged(ps, pm, Hits(gpus[..g]))
      invariant |entries| == g
      invariant forall k :: 0 <= k < g ==> entries[k] == EntryOf(gpus[k], pm)
    {
      var gpu := gpus[g];
      var members := MarkGpuProcesses(procs, pm, gpu, ps, Hits(gpus[..g]));
      assert gpus[..g + 1][..g] == gpus[..g];
      entries := entries + [GpuEntry(gpu.index, gpu.name, gpu.temperature, gpu.utilization,
        gpu.memoryUsed, gpu.memoryTotal, members)];
    }
    assert gpus[..|gpus|] == gpus;
  }

  /** The inner loop of the join: one GPU's listed processes. */
  method MarkGpuProcesses(procs: array<Process>, pm: map<nat, nat>, gpu: GpuStat, ghost ps: seq<Process>, ghost before: seq<Hit>)
    returns (members: seq<nat>)
    requires ValidMap(pm, |ps|) && procs.Length == |ps|
    requires procs[..] == Merged(ps, pm, before)
    modifies procs
    ensures procs[..] == Merged(ps, pm, before + Tagged(gpu.index, gpu.processes))
    ensures members == Members(pm, gpu.processes)
  {
    members := [];
    assert before + Tagged(gpu.index, gpu.processes[..0]) == before;
    for j := 0 to |gpu.processes|
      invariant procs[..] == Merged(ps, pm, before + Tagged(gpu.index, gpu.processes[..j]))
      invariant members == Members(pm, gpu.processes[..j])
    {
      var stat := gpu.processes[j];
      MergedNext(ps, pm, before, gpu.index, gpu.processes, j);
      MembersNext(pm, gpu.processes, j);
      if stat.pid in pm {
        var i := pm[stat.pid];
        procs[i] := Mark(procs[i], gpu.index, stat.gpuMemoryUsage);
        members := members + [i];
      }
    }
    assert gpu.processes[..|gpu.processes|] == gpu.processes;
  }

  /** One more listed process of a GPU: its hit. */
  lemma MergedNext(ps: seq<Process>, pm: map<nat, nat>, before: seq<Hit>, index: nat, stats: seq<GpuProcessStat>, j: nat)
    requires ValidMap(pm, |ps|) && j < |stats|
    ensures var prev := Merged(ps, pm, before + Tagged(index, stats[..j]));
      Merged(ps, pm, before + Tagged(index, stats[..j + 1])) ==
        if stats[j].pid in pm then prev[pm[stats[j].pid] := Mark(prev[pm[stats[j].pid]], index, stats[j].gpuMemoryUsage)]
        else prev
  {
    var hits := before + Tagged(index, stats[..j]);
    TaggedNext(index, stats, j);
    assert before + Tagged(index, stats[..j + 1]) == hits + [(index, stats[j])];
    MergedStep(ps, pm, hits, (index, stats[j]));
  }

  lemma TaggedNext(index: nat, stats: seq<GpuProcessStat>, j: nat)
    requires j < |stats|
    ensures Tagged(index, stats[..j + 1]) == Tagged(index, stats[..j]) + [(index, stats[j])]
  {
  }

  /** One more listed process of a GPU: its member entry. */
  lemma MembersNext(pm: map<nat, nat>, stats: seq<GpuProcessStat>, j: nat)
    requires j < |stats|
    ensures Members(pm, stats[..j + 1]) ==
      Members(pm, stats[..j]) + (if stats[j].pid in pm then [pm[stats[j].pid]] else [])
  {
    assert stats[..j + 1] == stats[..j] + [stats[j]];
    MembersStep(pm, stats[..j], stats[j]);
  }

  /**
   * A process listed on several GPUs is one record: it appears in each of
   * their lists, and it shows the index and memory of the last GPU that
   * lists it.
   */
  lemma LastGpuWins(ps: seq<Process>, gpus: seq<GpuStat>, pid: nat, a: nat, b: nat, ja: nat, jb: nat)
    requires a <= b < |gpus|
    requires ja < |gpus[a].processes| && gpus[a].processes[ja].pid == pid
    requires jb < |gpus[b].processes| && gpus[b].processes[jb].pid == pid
    requires forall j :: jb < j < |gpus[b].processes| ==> gpus[b].processes[j].pid != pid
    requires forall c, j :: b < c < |gpus| && 0 <= j < |gpus[c].processes| ==> gpus[c].processes[j].pid != pid
    requires exists i :: 0 <= i < |ps| && ps[i].info.pid == pid
    ensures var pm := ProcessMap(ps);
      && pm[pid] in EntryOf(gpus[a], pm).members
      && pm[pid] in EntryOf(gpus[b], pm).members
      && Merged(ps, pm, Hits(gpus))[pm[pid]] == Mark(ps[pm[pid]], gpus[b].index, gpus[b].processes[jb].gpuMemoryUsage)
  {
    var pm := ProcessMap(ps);
    LastHitOfPid(ps, gpus, pid, b, jb);
    MergedAt(ps, pm, Hits(gpus), pm[pid]);
  }

  /** Only a listed process with the record's own pid lands on that record. */
  lemma LandsOwnPid(ps: seq<Process>, hit: Hit, pid: nat)
    requires pid in ProcessMap(ps)
    requires Lands(ProcessMap(ps), hit, ProcessMap(ps)[pid])
    ensures hit.1.pid == pid
  {
  }

  /** No hit for another pid lands on a pid's record. */
  lemma {:induction false} LastHitOtherPids(ps: seq<Process>, hits: seq<Hit>, pid: nat)
    requires pid in ProcessMap(ps)
    requires forall h :: 0 <= h < |hits| ==> hits[h].1.pid != pid
    ensures LastHit(ProcessMap(ps), hits, ProcessMap(ps)[pid]).None?
  {
    forall h | 0 <= h < |hits| ensures !Lands(ProcessMap(ps), hits[h], ProcessMap(ps)[pid]) {
      if Lands(ProcessMap(ps), hits[h], ProcessMap(ps)[pid]) {
        LandsOwnPid(ps, hits[h], pid);
      }
    }
  }

  /** Within one GPU's list, the last listing of the pid decides. */
  lemma LastHitInGpu(ps: seq<Process>, index: nat, stats: seq<GpuProcessStat>, pid: nat, jb: nat)
    requires pid in ProcessMap(ps)
    requires jb < |stats| && stats[jb].pid == pid
    requires forall j :: jb < j < |stats| ==> stats[j].pid != pid
    ensures LastHit(ProcessMap(ps), Tagged(index, stats), ProcessMap(ps)[pid]) == Some((index, stats[jb].gpuMemoryUsage))
  {
    var t := Tagged(index, stats);
    var upTo, rest := t[..jb + 1], t[jb + 1..];
    assert t == upTo + rest;
    LastHitOtherPids(ps, rest, pid);
    assert upTo[|upTo| - 1] == t[jb];
    LastHitAppend(ProcessMap(ps), upTo, rest, ProcessMap(ps)[pid]);
  }

  /** The GPUs after the last one listing a pid contribute no hit for it. */
  lemma HitsWithout(gpus: seq<GpuStat>, pid: nat)
    requires forall c, j :: 0 <= c < |gpus| && 0 <= j < |gpus[c].processes| ==> gpus[c].processes[j].pid != pid
    ensures forall h :: 0 <= h < |Hits(gpus)| ==> Hits(gpus)[h].1.pid != pid
  {
    forall h | 0 <= h < |Hits(gpus)| ensures Hits(gpus)[h].1.pid != pid {
      HitsFrom(gpus, h);
    }
  }

  /** The last hit on a pid's record is the last listing of that pid. */
  lemma LastHitOfPid(ps: seq<Process>, gpus: seq<GpuStat>, pid: nat, b: nat, jb: nat)
    requires b < |gpus|
    requires jb < |gpus[b].processes| && gpus[b].processes[jb].pid == pid
    requires forall j :: jb < j < |gpus[b].processes| ==> gpus[b].processes[j].pid != pid
    requires forall c, j :: b < c < |gpus| && 0 <= j < |gpus[c].processes| ==> gpus[c].processes[j].pid != pid
    requires pid in ProcessMap(ps)
    ensures LastHit(ProcessMap(ps), Hits(gpus), ProcessMap(ps)[pid])
      == Some((gpus[b].index, gpus[b].processes[jb].gpuMemoryUsage))
  {
    var pm := ProcessMap(ps);
    var upTo, after := gpus[..b + 1], gpus[b + 1..];
    assert gpus == upTo + after;
    HitsAppend(upTo, after);
    LastHitThroughGpu(ps, gpus, pid, b, jb);
    LastHitNoneAfter(ps, gpus, pid, b);
    LastHitAppend(pm, Hits(upTo), Hits(after), pm[pid]);
  }

  /** Up to and including GPU `b`, the pid's last listing is the one on GPU `b`. */
  lemma LastHitThroughGpu(ps: seq<Process>, gpus: seq<GpuStat>, pid: nat, b: nat, jb: nat)
    requires b < |gpus|
    requires jb < |gpus[b].processes| && gpus[b].processes[jb].pid == pid
    requires forall j :: jb < j < |gpus[b].processes| ==> gpus[b].processes[j].pid != pid
    requires pid in ProcessMap(ps)
    ensures LastHit(ProcessMap(ps), Hits(gpus[..b + 1]), ProcessMap(ps)[pid])
      == Some((gpus[b].index, gpus[b].processes[jb].gpuMemoryUsage))
  {
    var upTo := gpus[..b + 1];
    assert upTo[..b] == gpus[..b];
    assert Hits(upTo) == Hits(gpus[..b]) + Tagged(gpus[b].index, gpus[b].processes);
    LastHitInGpu(ps, gpus[b].index, gpus[b].processes, pid, jb);
    LastHitAppend(ProcessMap(ps), Hits(gpus[..b]), Tagged(gpus[b].index, gpus[b].processes), ProcessMap(ps)[pid]);
  }

  /** No GPU after `b` lists the pid, so none of them reaches its record. */
  lemma LastHitNoneAfter(ps: seq<Process>, gpus: seq<GpuStat>, pid: nat, b: nat)
    requires b < |gpus|
    requires forall c, j :: b < c < |gpus| && 0 <= j < |gpus[c].processes| ==> gpus[c].processes[j].pid != pid
    requires pid in ProcessMap(ps)
    ensures LastHit(ProcessMap(ps), Hits(gpus[b + 1..]), ProcessMap(ps)[pid]).None?
  {
    var after := gpus[b + 1..];
    forall c, j | 0 <= c < |after| && 0 <= j < |after[c].processes| ensures after[c].processes[j].pid != pid {
      assert after[c] == gpus[b + 1 + c];
    }
    HitsWithout(after, pid);
    LastHitOtherPids(ps, Hits(after), pid);
  }

  /** Every hit comes from one listed process of one GPU. */
  lemma {:induction false} HitsFrom(gpus: seq<GpuStat>, h: nat)
    requires h < |Hits(gpus)|
    ensures exists c, j ::
      0 <= c < |gpus| && 0 <= j < |gpus[c].processes| && Hits(gpus)[h] == (gpus[c].index, gpus[c].processes[j])
  {
    var init := gpus[..|gpus| - 1];
    var last := gpus[|gpus| - 1];
    if h < |Hits(init)| {
      HitsFrom(init, h);
      var c, j :| 0 <= c < |init| && 0 <= j < |init[c].processes| && Hits(init)[h] == (init[c].index, init[c].processes[j]);
      assert gpus[c] == init[c];
    } else {
      var j := h - |Hits(init)|;
      assert Hits(gpus)[h] == (last.index, last.processes[j]);
    }
  }

  // ---------------------------------------------------------------- one collection round

  predicate InRange(positions: seq<nat>, n: nat) {
    forall j :: 0 <= j < |positions| ==> positions[j] < n
  }

  /** Every position a GPU entry lists is a record of the process list. */
  lemma EntryInRange(ps: seq<Process>, gpu: GpuStat)
    ensures InRange(EntryOf(gpu, ProcessMap(ps)).members, |ps|)
  {
    var members := Members(ProcessMap(ps), gpu.processes);
    forall j | 0 <= j < |members| ensures members[j] < |ps| {
      assert members[j] in members;
    }
  }

  /** The loop that turns each GPU entry into the view the report carries. */
  method ResolveEntries(entries: seq<GpuEntry>, records: seq<Process>) returns (views: seq<GpuView>)
    requires forall c :: 0 <= c < |entries| ==> InRange(entries[c].members, |records|)
    ensures |views| == |entries|
    ensures forall c :: 0 <= c < |entries| ==> views[c] == Resolve(entries[c], records)
  {
    views := [];
    for k := 0 to |entries|
      invariant |views| == k
      invariant forall c :: 0 <= c < k ==> views[c] == Resolve(entries[c], records)
    {
      views := views + [Resolve(entries[k], records)];
    }
  }

  /** A GPU entry with its positions replaced by the records they refer to. */
  function Resolve(e: GpuEntry, records: seq<Process>): (v: GpuView)
    requires InRange(e.members, |records|)
    ensures v.id == e.id && |v.processes| == |e.members|
    ensures forall j :: 0 <= j < |e.members| ==> v.processes[j] == records[e.members[j]]
  {
    GpuView(e.id, e.name, e.temperature, e.utilization, e.memoryUsed, e.memoryTotal,
      seq(|e.members|, j requires 0 <= j < |e.members| => records[e.members[j]]))
  }

  /** What one collection round sends to the server. */
  datatype Collected = Collected(hostname: string, timestamp: int, gpuData: seq<GpuView>, systemInfo: SystemInfo)

  /**
   * `collect_gpu_info` with `get_system_info`: the process list marked by
   * the GPU join, each GPU's processes drawn from that very list, and the
   * address, sessions and containers probed alongside.
   */
  method CollectGpuInfo(
    hostname: string, timestamp: int,
    probes: seq<(nat, Option<ProcessProbe>)>, gpus: seq<GpuStat>,
    routed: Option<string>, interfaces: Option<seq<(string, seq<Addr>)>>,
    screenOut: Option<string>, dockerOut: Option<string>)
    returns (data: Collected)
    ensures data.hostname == hostname && data.timestamp == timestamp
    ensures data.systemInfo.processes == Merged(Initial(probes), ProcessMap(Initial(probes)), Hits(gpus))
    ensures |data.gpuData| == |gpus|
    ensures forall k :: 0 <= k < |gpus| ==>
      && InRange(EntryOf(gpus[k], ProcessMap(Initial(probes))).members, |Initial(probes)|)
      && data.gpuData[k] == Resolve(EntryOf(gpus[k], ProcessMap(Initial(probes))), data.systemInfo.processes)
    ensures routed.Some? ==> data.systemInfo.ipAddress == routed.value
    ensures routed.None? && interfaces.Some? && FallbackAddress(interfaces.value).Some? ==>
      data.systemInfo.ipAddress == FallbackAddress(interfaces.value).value
    ensures routed.None? && (interfaces.None? || FallbackAddress(interfaces.value).None?) ==>
      data.systemInfo.ipAddress == UnknownAddress
    ensures screenOut.None? ==> data.systemInfo.screenSessions == []
    ensures screenOut.Some? ==> data.systemInfo.screenSessions == ScreenSessionsOf(Split(screenOut.value, '\n'))
    ensures dockerOut.None? ==> data.systemInfo.dockerContainers == []
    ensures dockerOut.Some? ==>
      data.systemInfo.dockerContainers == ContainersOf(Split(dockerOut.value, '\n')).GetOr([])
  {
    var all := GetAllProcesses(probes);
    assert all == Initial(probes);
    var procs := new Process[|all|](i requires 0 <= i < |all| => all[i]);
    assert procs[..] == all;
    var entries := CollectGpuProcesses(procs, gpus);
    var records := procs[..];
    forall k | 0 <= k < |gpus| ensures InRange(entries[k].members, |records|) {
      EntryInRange(all, gpus[k]);
    }
    var gpuData := ResolveEntries(entries, records);
    var ip := GetIpAddress(routed, interfaces);
    var sessions := GetScreenSessions(screenOut);
    var containers := GetDockerContainers(dockerOut);
    data := Collected(hostname, timestamp, gpuData, SystemInfo(ip, records, sessions, containers));
  }
}
