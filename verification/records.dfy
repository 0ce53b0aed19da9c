/**
 * The records that travel from the collector through the server to the
 * dashboard: processes, screen sessions, containers, and the per-host view
 * the React components read.
 */
module Records {
  import opened Wrappers
  import opened Text

  /** A JSON value, as the server stores and returns it. */
  datatype Json =
    | JNull
    | JBool(b: bool)
    | JNum(n: int)
    | JStr(str: string)
    | JArray(items: seq<Json>)
    | JObject(fields: map<string, Json>)

  /** What `get_process_info` reads for one pid (gpu_collector.py:14-23). */
  datatype ProcessInfo = ProcessInfo(
    pid: nat,
    name: string,
    cmdline: string,
    cpuPercent: real,
    memoryPercent: real,
    createTime: real,
    status: string,
    username: string)

  /** One process record: the probed fields plus the three GPU fields. */
  datatype Process = Process(
    info: ProcessInfo,
    isGpuProcess: bool,
    gpuMemoryUsage: int,
    gpuId: Option<nat>)

  datatype ScreenSession = ScreenSession(pid: string, name: string, status: string)

  datatype Container = Container(id: string, name: string, status: string, image: string)

  /** One GPU as the dashboard receives it. */
  datatype GpuView = GpuView(
    id: nat,
    name: string,
    temperature: int,
    utilization: int,
    memoryUsed: int,
    memoryTotal: int,
    processes: seq<Process>)

  datatype SystemInfo = SystemInfo(
    ipAddress: string,
    processes: seq<Process>,
    screenSessions: seq<ScreenSession>,
    dockerContainers: seq<Container>)

  /** One host as the dashboard receives it; `is_online` is set by the server. */
  datatype Machine = Machine(
    isOnline: bool,
    timestamp: int,
    systemInfo: Option<SystemInfo>,
    gpuData: seq<GpuView>)

  /** `Object.entries(machines)`: hostnames with their records, in object order. */
  type Entries = seq<(string, Machine)>

  /**
   * The search predicate shared by the GPU process table and the host-wide
   * search: the lowered query occurs in the lowered name or command line.
   */
  predicate MatchesQuery(p: Process, queryLower: string) {
    Contains(Lower(p.info.name), queryLower) || Contains(Lower(p.info.cmdline), queryLower)
  }
}
